/** Read state: the cursor of a channel, the read marks of its messages and its unread count. */
module ReadCursor {
  import opened Tables

  function KeepPts(db: Db, ch: nat, ty: int): nat {
    if (ch, ty) in db.cursor then db.cursor[(ch, ty)].keepPts else 0
  }

  /** Messages of the channel with lo < pts <= hi. */
  function Span(db: Db, ch: nat, ty: int, lo: int, hi: int): set<nat> {
    set i | i in db.message && InChannel(db.message[i], ch, ty) && lo < db.message[i].pts <= hi
  }

  /** Those of them other people wrote. */
  function ForeignSpan(db: Db, uid: nat, ch: nat, ty: int, lo: int, hi: int): set<nat> {
    set i | i in db.message && InChannel(db.message[i], ch, ty) && lo < db.message[i].pts <= hi
      && db.message[i].from != uid
  }

  /** Other people's messages above the cursor. */
  function Unread(db: Db, uid: nat, ch: nat, ty: int, keep: int): set<nat> {
    set i | i in db.message && InChannel(db.message[i], ch, ty) && db.message[i].pts > keep && db.message[i].from != uid
  }

  function MarkRead(extra: map<nat, Extra>, i: nat, ch: nat, ty: int, now: int): Extra {
    if i in extra then
      extra[i].(readed := true, readedCount := if extra[i].readedCount < 1 then 1 else extra[i].readedCount,
                unreadCount := 0, version := now)
    else Extra(ch, ty, true, 1, 0, false, now)
  }

  function Max(a: int, b: int): int { if a >= b then a else b }

  function Less(unread: Int32, n: nat): Int32 {
    if unread - n > 0 then unread - n else 0
  }

  function RaiseCursor(cursor: map<(nat, int), ChannelExtra>, k: (nat, int), read: nat, now: int)
    : map<(nat, int), ChannelExtra>
  {
    cursor[k := ChannelExtra(if k in cursor then Max(cursor[k].browseTo, read) else read, read, now)]
  }

  function MarkAll(extra: map<nat, Extra>, passed: set<nat>, ch: nat, ty: int, now: int): map<nat, Extra> {
    map i | i in extra.Keys + passed :: if i in passed then MarkRead(extra, i, ch, ty, now) else extra[i]
  }

  /** Only an existing channel row is updated. */
  function TakeOff(channel: map<nat, Channel>, ch: nat, n: nat, now: int): map<nat, Channel> {
    if ch !in channel then channel
    else channel[ch := channel[ch].(unread := Less(channel[ch].unread, n), updatedAt := now)]
  }

  /** Project a read cursor: move the watermark up, mark what it passes, and take what it passes of
      other people's messages off the unread count. */
  function Project(db: Db, uid: nat, ch: nat, ty: int, read: nat, now: int): Db {
    var keep := KeepPts(db, ch, ty);
    if read <= keep then db
    else
      db.(cursor := RaiseCursor(db.cursor, (ch, ty), read, now),
          extra := MarkAll(db.extra, Span(db, ch, ty, keep, read), ch, ty, now),
          channel := TakeOff(db.channel, ch, |ForeignSpan(db, uid, ch, ty, keep, read)|, now))
  }

  /** Several cursors, each at its own clock time. */
  datatype Cursor = Cursor(read: nat, now: int)

  function ProjectAll(db: Db, uid: nat, ch: nat, ty: int, cs: seq<Cursor>): Db {
    if cs == [] then db
    else Project(ProjectAll(db, uid, ch, ty, cs[..|cs| - 1]), uid, ch, ty, cs[|cs| - 1].read, cs[|cs| - 1].now)
  }

  function MaxRead(cs: seq<Cursor>): nat {
    if cs == [] then 0 else Max(MaxRead(cs[..|cs| - 1]), cs[|cs| - 1].read)
  }

  // The tables without the columns that record when a row was last written.

  function UnstampedCursor(t: map<(nat, int), ChannelExtra>): map<(nat, int), ChannelExtra> {
    map k | k in t :: t[k].(version := 0)
  }

  function UnstampedExtra(t: map<nat, Extra>): map<nat, Extra> { map i | i in t :: t[i].(version := 0) }

  function UnstampedChannel(t: map<nat, Channel>): map<nat, Channel> { map c | c in t :: t[c].(updatedAt := 0) }

  /** The two stores are the same but for those columns. */
  predicate SameButStamps(a: Db, b: Db) {
    && UnstampedCursor(a.cursor) == UnstampedCursor(b.cursor)
    && UnstampedExtra(a.extra) == UnstampedExtra(b.extra)
    && UnstampedChannel(a.channel) == UnstampedChannel(b.channel)
    && a.message == b.message && a.nextId == b.nextId && a.outbox == b.outbox && a.nextCommand == b.nextCommand
  }

  // ----- cursor algebra -----

  lemma SpansSplit(db: Db, uid: nat, ch: nat, ty: int, lo: int, mid: int, hi: int)
    requires lo <= mid <= hi
    ensures Span(db, ch, ty, lo, hi) == Span(db, ch, ty, lo, mid) + Span(db, ch, ty, mid, hi)
    ensures |ForeignSpan(db, uid, ch, ty, lo, hi)| == |ForeignSpan(db, uid, ch, ty, lo, mid)|
      + |ForeignSpan(db, uid, ch, ty, mid, hi)|
  {
    var below, above := ForeignSpan(db, uid, ch, ty, lo, mid), ForeignSpan(db, uid, ch, ty, mid, hi);
    assert below !! above;
    assert ForeignSpan(db, uid, ch, ty, lo, hi) == below + above;
  }

  lemma MarkTwice(extra: map<nat, Extra>, p: set<nat>, q: set<nat>, ch: nat, ty: int, now: int)
    ensures MarkAll(MarkAll(extra, p, ch, ty, now), q, ch, ty, now) == MarkAll(extra, p + q, ch, ty, now)
  {
  }

  lemma TakeOffTwice(channel: map<nat, Channel>, ch: nat, m: nat, n: nat, now: int)
    ensures TakeOff(TakeOff(channel, ch, m, now), ch, n, now) == TakeOff(channel, ch, m + n, now)
  {
  }

  lemma RaiseTwice(cursor: map<(nat, int), ChannelExtra>, k: (nat, int), a: nat, b: nat, now: int)
    requires a < b
    ensures RaiseCursor(RaiseCursor(cursor, k, a, now), k, b, now) == RaiseCursor(cursor, k, b, now)
  {
  }

  /** A stale or repeated cursor changes nothing; at one clock time two cursors act as the greater. */
  lemma TwoCursorsAreTheGreater(db: Db, uid: nat, ch: nat, ty: int, a: nat, b: nat, now: int)
    ensures Project(Project(db, uid, ch, ty, a, now), uid, ch, ty, b, now) == Project(db, uid, ch, ty, Max(a, b), now)
  {
    var keep := KeepPts(db, ch, ty);
    if keep < a < b {
      SpansSplit(db, uid, ch, ty, keep, a, b);
      var mid := Project(db, uid, ch, ty, a, now);
      assert Span(mid, ch, ty, a, b) == Span(db, ch, ty, a, b);
      assert ForeignSpan(mid, uid, ch, ty, a, b) == ForeignSpan(db, uid, ch, ty, a, b);
      RaiseTwice(db.cursor, (ch, ty), a, b, now);
      MarkTwice(db.extra, Span(db, ch, ty, keep, a), Span(db, ch, ty, a, b), ch, ty, now);
      TakeOffTwice(db.channel, ch, |ForeignSpan(db, uid, ch, ty, keep, a)|, |ForeignSpan(db, uid, ch, ty, a, b)|, now);
    }
  }

  lemma ClockOnlyStampsCursor(t: map<(nat, int), ChannelExtra>, u: map<(nat, int), ChannelExtra>, k: (nat, int),
    read: nat, n1: int, n2: int)
    requires UnstampedCursor(t) == UnstampedCursor(u)
    ensures k in t <==> k in u
    ensures k in t ==> t[k].keepPts == u[k].keepPts
    ensures UnstampedCursor(RaiseCursor(t, k, read, n1)) == UnstampedCursor(RaiseCursor(u, k, read, n2))
  {
    assert t.Keys == UnstampedCursor(t).Keys == UnstampedCursor(u).Keys == u.Keys;
    assert forall j :: j in t ==> UnstampedCursor(t)[j] == UnstampedCursor(u)[j];
  }

  lemma ClockOnlyStampsExtra(t: map<nat, Extra>, u: map<nat, Extra>, p: set<nat>, ch: nat, ty: int, n1: int, n2: int)
    requires UnstampedExtra(t) == UnstampedExtra(u)
    ensures UnstampedExtra(MarkAll(t, p, ch, ty, n1)) == UnstampedExtra(MarkAll(u, p, ch, ty, n2))
  {
    assert t.Keys == UnstampedExtra(t).Keys == UnstampedExtra(u).Keys == u.Keys;
    assert forall i :: i in t ==> UnstampedExtra(t)[i] == UnstampedExtra(u)[i];
  }

  lemma ClockOnlyStampsChannel(t: map<nat, Channel>, u: map<nat, Channel>, ch: nat, n: nat, n1: int, n2: int)
    requires UnstampedChannel(t) == UnstampedChannel(u)
    ensures UnstampedChannel(TakeOff(t, ch, n, n1)) == UnstampedChannel(TakeOff(u, ch, n, n2))
  {
    assert t.Keys == UnstampedChannel(t).Keys == UnstampedChannel(u).Keys == u.Keys;
    assert forall c :: c in t ==> UnstampedChannel(t)[c] == UnstampedChannel(u)[c];
  }

  /** The clock reaches only the stamps. */
  lemma ClockOnlyStamps(db1: Db, db2: Db, uid: nat, ch: nat, ty: int, read: nat, now1: int, now2: int)
    requires SameButStamps(db1, db2)
    ensures SameButStamps(Project(db1, uid, ch, ty, read, now1), Project(db2, uid, ch, ty, read, now2))
  {
    ClockOnlyStampsCursor(db1.cursor, db2.cursor, (ch, ty), read, now1, now2);
    var keep := KeepPts(db1, ch, ty);
    assert Span(db1, ch, ty, keep, read) == Span(db2, ch, ty, keep, read);
    assert ForeignSpan(db1, uid, ch, ty, keep, read) == ForeignSpan(db2, uid, ch, ty, keep, read);
    ClockOnlyStampsExtra(db1.extra, db2.extra, Span(db1, ch, ty, keep, read), ch, ty, now1, now2);
    ClockOnlyStampsChannel(db1.channel, db2.channel, ch, |ForeignSpan(db1, uid, ch, ty, keep, read)|, now1, now2);
  }

  /** Any sequence of cursors, stale, repeated and out of order, leaves the watermark, the read
      marks and the unread count that its greatest cursor alone would leave. */
  lemma {:induction false} CursorsCollapse(db: Db, uid: nat, ch: nat, ty: int, cs: seq<Cursor>, now: int)
    ensures SameButStamps(ProjectAll(db, uid, ch, ty, cs), Project(db, uid, ch, ty, MaxRead(cs), now))
  {
    if cs != [] {
      var init, last := cs[..|cs| - 1], cs[|cs| - 1];
      CursorsCollapse(db, uid, ch, ty, init, now);
      ClockOnlyStamps(ProjectAll(db, uid, ch, ty, init), Project(db, uid, ch, ty, MaxRead(init), now), uid, ch, ty,
        last.read, last.now, now);
      TwoCursorsAreTheGreater(db, uid, ch, ty, MaxRead(init), last.read, now);
    }
  }

  /** What one projection does: exactly the messages between the old and the new watermark gain a
      read mark, nothing else of any message, channel or command changes, and no channel row is
      created. */
  lemma ProjectionIsPrecise(db: Db, uid: nat, ch: nat, ty: int, read: nat, now: int)
    ensures
      var db' := Project(db, uid, ch, ty, read, now);
      && KeepPts(db', ch, ty) == Max(KeepPts(db, ch, ty), read)
      && db'.message == db.message && db'.outbox == db.outbox && db'.channel.Keys == db.channel.Keys
      && (forall c :: c in db.channel && c != ch ==> db'.channel[c] == db.channel[c])
      && (forall k :: k != (ch, ty) ==>
            (k in db'.cursor <==> k in db.cursor) && (k in db.cursor ==> db'.cursor[k] == db.cursor[k]))
      && (forall i :: IsRead(db', i) <==> IsRead(db, i) || i in Span(db, ch, ty, KeepPts(db, ch, ty), read))
      && (forall i :: i in db.extra ==> i in db'.extra && db'.extra[i].revoke == db.extra[i].revoke)
      && (forall i :: i in db.extra ==> i in db'.extra && db'.extra[i].readedCount >= db.extra[i].readedCount)
      && (forall i :: i in db'.extra && i in Span(db, ch, ty, KeepPts(db, ch, ty), read) ==>
            db'.extra[i].readedCount >= 1 && db'.extra[i].unreadCount == 0)
  {
  }

  // ----- what one projection writes, column by column -----

  /** The other people's messages of the channel with lo < pts <= hi. */
  function PassedForeign(t: map<nat, Message>, uid: nat, ch: nat, ty: int, lo: int, hi: int): set<nat> {
    set i | i in t && t[i].channel == ch && t[i].channelType == ty && t[i].from != uid
              && lo < t[i].pts && t[i].pts <= hi
  }

  /** The watermark is raised, the browse position too unless it was higher. */
  predicate IsRaised(
    before: map<(nat, int), ChannelExtra>, k: (nat, int), read: nat, now: int, after: map<(nat, int), ChannelExtra>)
  {
    && k in after && after[k].keepPts == read && after[k].version == now
    && (if k in before then IsGreater(after[k].browseTo, before[k].browseTo, read) else after[k].browseTo == read)
  }

  /** The channel's count is less by `n`, but never below zero. */
  predicate IsTakenOff(before: map<nat, Channel>, ch: nat, n: nat, now: int, after: map<nat, Channel>) {
    if ch !in before then ch !in after
    else
      && ch in after && after[ch].updatedAt == now && after[ch].channelType == before[ch].channelType
      && after[ch].hidden == before[ch].hidden
      && after[ch].unread == (if before[ch].unread > n then before[ch].unread - n else 0)
  }

  predicate Passes(m: Message, ch: nat, ty: int, lo: int, hi: int) {
    m.channel == ch && m.channelType == ty && lo < m.pts && m.pts <= hi
  }

  /** Exactly the extras of messages passed are written. */
  ghost predicate MarksPassed(db: Db, ch: nat, ty: int, lo: int, hi: int, now: int, after: map<nat, Extra>) {
    && (forall i :: i in db.message && Passes(db.message[i], ch, ty, lo, hi) ==>
          i in after && IsMarked(db.extra, i, ch, ty, now, after[i]))
    && (forall i :: i in after && !(i in db.message && Passes(db.message[i], ch, ty, lo, hi)) ==>
          i in db.extra && after[i] == db.extra[i])
  }

  /** A cursor that is not above the watermark changes nothing. One that is moves the watermark there and the
      browse position no lower, takes the other people's messages it passes off the channel's count but never
      below zero, and gives every message it passes a read mark: read, by at least one reader, nothing unread. */
  lemma ProjectionColumns(db: Db, uid: nat, ch: nat, ty: int, read: nat, now: int)
    ensures
      var keep := if (ch, ty) in db.cursor then db.cursor[(ch, ty)].keepPts else 0;
      var db' := Project(db, uid, ch, ty, read, now);
      if read <= keep then db' == db
      else
        && IsRaised(db.cursor, (ch, ty), read, now, db'.cursor)
        && IsTakenOff(db.channel, ch, |PassedForeign(db.message, uid, ch, ty, keep, read)|, now, db'.channel)
        && MarksPassed(db, ch, ty, keep, read, now, db'.extra)
  {
    var keep := KeepPts(db, ch, ty);
    if read > keep {
      assert PassedForeign(db.message, uid, ch, ty, keep, read) == ForeignSpan(db, uid, ch, ty, keep, read);
      MarkAllMarksPassed(db, ch, ty, keep, read, now);
    }
  }

  lemma MarkAllMarksPassed(db: Db, ch: nat, ty: int, lo: int, hi: int, now: int)
    ensures MarksPassed(db, ch, ty, lo, hi, now, MarkAll(db.extra, Span(db, ch, ty, lo, hi), ch, ty, now))
  {
  }

  predicate IsGreater(r: int, a: int, b: int) { r >= a && r >= b && (r == a || r == b) }

  predicate IsMarked(before: map<nat, Extra>, i: nat, ch: nat, ty: int, now: int, e: Extra) {
    && e.readed && e.unreadCount == 0 && e.version == now
    && (i !in before ==> e.readedCount == 1 && !e.revoke && e.channel == ch && e.channelType == ty)
    && (i in before ==>
          && IsGreater(e.readedCount, before[i].readedCount, 1) && e.revoke == before[i].revoke
          && e.channel == before[i].channel && e.channelType == before[i].channelType)
  }

  /** Stores that differ in stamps only show the same watermarks, read marks, revocations and counts. */
  lemma StampsAreNotShown(a: Db, b: Db)
    requires SameButStamps(a, b)
    ensures
      && (forall k :: k in a.cursor <==> k in b.cursor) && (forall i :: i in a.extra <==> i in b.extra)
      && (forall c :: c in a.channel <==> c in b.channel)
      && (forall k :: k in a.cursor ==>
            a.cursor[k].keepPts == b.cursor[k].keepPts && a.cursor[k].browseTo == b.cursor[k].browseTo)
      && (forall i :: i in a.extra ==> a.extra[i].(version := 0) == b.extra[i].(version := 0))
      && (forall c :: c in a.channel ==> a.channel[c].(updatedAt := 0) == b.channel[c].(updatedAt := 0))
      && a.message == b.message && a.outbox == b.outbox
  {
    assert a.cursor.Keys == UnstampedCursor(a.cursor).Keys && b.cursor.Keys == UnstampedCursor(b.cursor).Keys;
    assert a.extra.Keys == UnstampedExtra(a.extra).Keys && b.extra.Keys == UnstampedExtra(b.extra).Keys;
    assert a.channel.Keys == UnstampedChannel(a.channel).Keys && b.channel.Keys == UnstampedChannel(b.channel).Keys;
    forall k | k in a.cursor
      ensures a.cursor[k].keepPts == b.cursor[k].keepPts && a.cursor[k].browseTo == b.cursor[k].browseTo
    {
      assert UnstampedCursor(a.cursor)[k] == UnstampedCursor(b.cursor)[k];
    }
    forall i | i in a.extra ensures a.extra[i].(version := 0) == b.extra[i].(version := 0) {
      assert UnstampedExtra(a.extra)[i] == UnstampedExtra(b.extra)[i];
    }
    forall c | c in a.channel ensures a.channel[c].(updatedAt := 0) == b.channel[c].(updatedAt := 0) {
      assert UnstampedChannel(a.channel)[c] == UnstampedChannel(b.channel)[c];
    }
  }

  /** The unread count is of other people's messages above the watermark, all of them when there is none. */
  lemma UnreadNowCounts(db: Db, uid: nat, ch: nat, ty: int)
    ensures
      UnreadNow(db, uid, ch, ty) ==
      |set i | i in db.message && db.message[i].channel == ch && db.message[i].channelType == ty
                 && db.message[i].from != uid
                 && db.message[i].pts > (if (ch, ty) in db.cursor then db.cursor[(ch, ty)].keepPts else 0)|
  {
    var counted := set i | i in db.message && db.message[i].channel == ch && db.message[i].channelType == ty
                             && db.message[i].from != uid
                             && db.message[i].pts > (if (ch, ty) in db.cursor then db.cursor[(ch, ty)].keepPts else 0);
    assert counted == Unread(db, uid, ch, ty, KeepPts(db, ch, ty));
  }

  predicate IsRead(db: Db, i: nat) { i in db.extra && db.extra[i].readed }

  // ----- unread conservation -----

  lemma UnreadSplits(db: Db, uid: nat, ch: nat, ty: int, keep: int, read: int)
    requires keep <= read
    ensures |Unread(db, uid, ch, ty, keep)| == |ForeignSpan(db, uid, ch, ty, keep, read)|
      + |Unread(db, uid, ch, ty, read)|
  {
    var passed, rest := ForeignSpan(db, uid, ch, ty, keep, read), Unread(db, uid, ch, ty, read);
    assert passed !! rest;
    assert Unread(db, uid, ch, ty, keep) == passed + rest;
  }

  function UnreadNow(db: Db, uid: nat, ch: nat, ty: int): nat { |Unread(db, uid, ch, ty, KeepPts(db, ch, ty))| }

  /** A channel's count that is exact stays exact, and one that is not too small never becomes too
      small, over any sequence of cursors. */
  lemma {:induction false} UnreadIsConserved(db: Db, uid: nat, ch: nat, ty: int, cs: seq<Cursor>)
    requires ch in db.channel
    ensures
      var db' := ProjectAll(db, uid, ch, ty, cs);
      && ch in db'.channel && db'.message == db.message
      && (db.channel[ch].unread == UnreadNow(db, uid, ch, ty) ==> db'.channel[ch].unread == UnreadNow(db', uid, ch, ty))
      && (db.channel[ch].unread >= UnreadNow(db, uid, ch, ty) ==> db'.channel[ch].unread >= UnreadNow(db', uid, ch, ty))
  {
    if cs != [] {
      var init, last := cs[..|cs| - 1], cs[|cs| - 1];
      UnreadIsConserved(db, uid, ch, ty, init);
      ProjectConserves(ProjectAll(db, uid, ch, ty, init), uid, ch, ty, last.read, last.now);
    }
  }

  lemma ProjectConserves(db: Db, uid: nat, ch: nat, ty: int, read: nat, now: int)
    requires ch in db.channel
    ensures
      var db' := Project(db, uid, ch, ty, read, now);
      && ch in db'.channel && db'.message == db.message
      && (db.channel[ch].unread == UnreadNow(db, uid, ch, ty) ==> db'.channel[ch].unread == UnreadNow(db', uid, ch, ty))
      && (db.channel[ch].unread >= UnreadNow(db, uid, ch, ty) ==> db'.channel[ch].unread >= UnreadNow(db', uid, ch, ty))
  {
    var keep := KeepPts(db, ch, ty);
    if read > keep {
      UnreadSplits(db, uid, ch, ty, keep, read);
      var db' := Project(db, uid, ch, ty, read, now);
      assert Unread(db', uid, ch, ty, read) == Unread(db, uid, ch, ty, read);
    }
  }

  // ----- the self-heal on reading a channel -----

  function Newer(t: map<nat, Message>, ch: nat, ty: int, m: int): set<nat> {
    set i | i in t && InChannel(t[i], ch, ty) && t[i].pts > m
  }

  /** The greatest pts in the channel from `m` up. */
  function MaxFrom(t: map<nat, Message>, ch: nat, ty: int, m: int): (r: int)
    ensures r >= m && Newer(t, ch, ty, r) == {}
    ensures r == m || exists i :: i in t && InChannel(t[i], ch, ty) && t[i].pts == r
    decreases |Newer(t, ch, ty, m)|
  {
    var next := Least(Newer(t, ch, ty, m));
    if next.None? then m
    else
      var higher := t[next.value].pts;
      assert Newer(t, ch, ty, higher) <= Newer(t, ch, ty, m) - {next.value};
      SubsetIsSmaller(Newer(t, ch, ty, higher), Newer(t, ch, ty, m) - {next.value});
      MaxFrom(t, ch, ty, higher)
  }

  lemma {:induction false} SubsetIsSmaller(a: set<nat>, b: set<nat>)
    requires a <= b
    ensures |a| <= |b|
  {
    if a != {} {
      var x :| x in a;
      SubsetIsSmaller(a - {x}, b - {x});
    }
  }

  function ChannelRows(t: map<nat, Message>, ch: nat, ty: int): set<nat> {
    set i | i in t && InChannel(t[i], ch, ty)
  }

  /** COALESCE(MAX(pts), 0) over the channel. */
  function MaxPts(t: map<nat, Message>, ch: nat, ty: int): (r: int)
    ensures forall i :: i in ChannelRows(t, ch, ty) ==> t[i].pts <= r
    ensures if ChannelRows(t, ch, ty) == {} then r == 0 else exists i :: i in ChannelRows(t, ch, ty) && t[i].pts == r
  {
    var first := Least(ChannelRows(t, ch, ty));
    if first.None? then 0
    else
      var r := MaxFrom(t, ch, ty, t[first.value].pts);
      assert forall i :: i in ChannelRows(t, ch, ty) && t[i].pts > r ==> i in Newer(t, ch, ty, r);
      r
  }

  lemma NothingAboveMax(db: Db, uid: nat, ch: nat, ty: int, keep: int)
    requires keep >= MaxPts(db.message, ch, ty)
    ensures Unread(db, uid, ch, ty, keep) == {}
  {
    assert forall i :: i in Unread(db, uid, ch, ty, keep) ==> i in ChannelRows(db.message, ch, ty);
  }

  /** Reading a channel: when its cursor has passed every message the exact count is shown, and
      written back if it differs; otherwise the stored count is shown, never below zero. */
  function Resolve(db: Db, uid: nat, ch: nat, now: int): (Db, int)
    requires ch in db.channel
  {
    var ty, stored := db.channel[ch].channelType, Max(db.channel[ch].unread, 0);
    var keep, maxPts := KeepPts(db, ch, ty), MaxPts(db.message, ch, ty);
    if (ch, ty) !in db.cursor || maxPts == 0 || keep < maxPts then (db, stored)
    else
      NothingAboveMax(db, uid, ch, ty, keep);
      var exact := |Unread(db, uid, ch, ty, keep)|;
      if exact == stored then (db, exact)
      else (db.(channel := db.channel[ch := db.channel[ch].(unread := exact, updatedAt := now)]), exact)
  }

  /** The self-heal only ever writes zero, and only into the unread count and its stamp; what it
      shows is then the materialised count; and a second read shows the same and writes nothing. */
  lemma SelfHealIsExact(db: Db, uid: nat, ch: nat, now: int, later: int)
    requires ch in db.channel
    ensures
      var ty := db.channel[ch].channelType;
      var (db', shown) := Resolve(db, uid, ch, now);
      && ch in db'.channel
      && (db' == db || db' == db.(channel := db.channel[ch := db.channel[ch].(unread := 0, updatedAt := now)]))
      && ((ch, ty) in db.cursor && MaxPts(db.message, ch, ty) != 0
           && KeepPts(db, ch, ty) >= MaxPts(db.message, ch, ty) ==>
            shown == 0 == UnreadNow(db, uid, ch, ty))
      && (db' != db ==> shown == 0 == UnreadNow(db', uid, ch, ty))
      && Resolve(db', uid, ch, later) == (db', shown)
  {
    var ty := db.channel[ch].channelType;
    var keep := KeepPts(db, ch, ty);
    var db' := Resolve(db, uid, ch, now).0;
    if keep >= MaxPts(db.message, ch, ty) {
      NothingAboveMax(db, uid, ch, ty, keep);
      NothingAboveMax(db', uid, ch, ty, keep);
    }
  }

  /** There is no watermark, some message of the channel is above it, or the greatest place in the timeline
      is none: 0. */
  ghost predicate NotPassed(db: Db, ch: nat, ty: int) {
    || (ch, ty) !in db.cursor
    || (exists i :: InRoom(db.message, i, ch, ty) && db.message[i].pts > db.cursor[(ch, ty)].keepPts)
    || (&& (forall i :: InRoom(db.message, i, ch, ty) ==> db.message[i].pts <= 0)
        && ((exists i :: InRoom(db.message, i, ch, ty)) ==>
              exists i :: InRoom(db.message, i, ch, ty) && db.message[i].pts == 0))
  }

  predicate InRoom(t: map<nat, Message>, i: nat, ch: nat, ty: int) {
    i in t && t[i].channel == ch && t[i].channelType == ty
  }

  lemma PassedByColumns(db: Db, ch: nat, ty: int)
    ensures
      NotPassed(db, ch, ty) <==>
      (ch, ty) !in db.cursor || MaxPts(db.message, ch, ty) == 0 || KeepPts(db, ch, ty) < MaxPts(db.message, ch, ty)
  {
    var t := db.message;
    assert forall i :: i in ChannelRows(t, ch, ty) <==> InRoom(t, i, ch, ty);
    if ChannelRows(t, ch, ty) != {} {
      var top :| top in ChannelRows(t, ch, ty) && t[top].pts == MaxPts(t, ch, ty);
      assert InRoom(t, top, ch, ty);
    }
  }

  /** A channel whose cursor has not passed every message is read as it stands: nothing is written, and the
      stored count is shown, or zero if it is negative. An exact count is thus shown exactly. */
  lemma UnpassedShowsStored(db: Db, uid: nat, ch: nat, now: int)
    requires ch in db.channel && NotPassed(db, ch, db.channel[ch].channelType)
    ensures
      var (db', shown) := Resolve(db, uid, ch, now);
      && db' == db && shown == (if db.channel[ch].unread < 0 then 0 else db.channel[ch].unread)
      && (db.channel[ch].unread == UnreadNow(db, uid, ch, db.channel[ch].channelType) ==>
            shown == UnreadNow(db, uid, ch, db.channel[ch].channelType))
  {
    PassedByColumns(db, ch, db.channel[ch].channelType);
  }

  /** And one whose cursor has passed them all shows zero, and has zero written if a positive count was
      stored. */
  lemma PassedShowsZero(db: Db, uid: nat, ch: nat, now: int)
    requires ch in db.channel && !NotPassed(db, ch, db.channel[ch].channelType)
    ensures
      var (db', shown) := Resolve(db, uid, ch, now);
      && shown == 0 == UnreadNow(db, uid, ch, db.channel[ch].channelType)
      && db' == (if db.channel[ch].unread <= 0 then db
                 else db.(channel := db.channel[ch := db.channel[ch].(unread := 0, updatedAt := now)]))
  {
    PassedByColumns(db, ch, db.channel[ch].channelType);
    SelfHealIsExact(db, uid, ch, now, now);
  }
}
