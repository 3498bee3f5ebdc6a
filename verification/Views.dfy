/** Ordered reads: the message list of a channel, the window around an anchor, and the sweep over
    channel identifiers. */
module Views {
  import opened Tables
  import opened Order

  function Pending(m: Message): int { if m.server.None? || m.server.value == 0 then 1 else 0 }

  /** Sort key of the message list: NULL sorts below every server id. */
  function ListKey(i: nat, m: Message): Key {
    Key(Pending(m), m.pts, if m.server.None? then -1 else m.server.value, i)
  }

  /** Sort key of the window query: NULL counts as 0. */
  function WindowKey(i: nat, m: Message): Key {
    Key(Pending(m), m.pts, if m.server.None? then 0 else m.server.value, i)
  }

  function ListKeys(t: map<nat, Message>, ch: nat, ty: int): set<Key> {
    set i | i in t && InChannel(t[i], ch, ty) :: ListKey(i, t[i])
  }

  function WindowKeys(t: map<nat, Message>, ch: nat, ty: int): set<Key> {
    set i | i in t && InChannel(t[i], ch, ty) :: WindowKey(i, t[i])
  }

  function Ids(s: seq<Key>): (r: seq<int>)
    ensures |r| == |s| && forall i :: 0 <= i < |s| ==> r[i] == s[i].k4
  {
    seq(|s|, i requires 0 <= i < |s| => s[i].k4)
  }

  /** The whole channel, newest first. */
  function Listing(t: map<nat, Message>, ch: nat, ty: int): seq<int> {
    Ids(Reverse(Sorted(ListKeys(t, ch, ty))))
  }

  function ListMessages(t: map<nat, Message>, ch: nat, ty: int, limit: nat, offset: nat): seq<int> {
    Page(Listing(t, ch, ty), limit, offset)
  }

  function FindAnchor(t: map<nat, Message>, ch: nat, ty: int, server: nat): (r: Option<nat>)
    ensures r.Some? ==> r.value in t && InChannel(t[r.value], ch, ty) && t[r.value].server == Some(server)
    ensures r.None? ==> forall i :: i in t && InChannel(t[i], ch, ty) ==> t[i].server != Some(server)
  {
    var rows := set i | i in t && InChannel(t[i], ch, ty) && t[i].server == Some(server);
    assert forall i :: i in t && InChannel(t[i], ch, ty) && t[i].server == Some(server) ==> i in rows;
    Least(rows)
  }

  /** The three window queries: at most `before` rows below the anchor's key, the anchor, and at
      most `after` rows above it. */
  function ListAround(t: map<nat, Message>, ch: nat, ty: int, server: nat, before: nat, after: nat): seq<int> {
    var anchor := FindAnchor(t, ch, ty, server);
    if anchor.None? then []
    else
      var keys, a := WindowKeys(t, ch, ty), WindowKey(anchor.value, t[anchor.value]);
      Ids(Sorted(Elements(Take(Reverse(Sorted(Below(keys, a))), before)))) + [a.k4]
      + Ids(Take(Sorted(Above(keys, a)), after))
  }

  // ----- the two sort keys give one order -----

  /** Keys that differ at most where a pending row has its NULL counted as 0. */
  function Recount(k: Key): Key { if k.k3 == -1 then k.(k3 := 0) else k }

  function RecountAll(s: seq<Key>): (r: seq<Key>)
    ensures |r| == |s| && forall i :: 0 <= i < |s| ==> r[i] == Recount(s[i])
  {
    seq(|s|, i requires 0 <= i < |s| => Recount(s[i]))
  }

  lemma RecountKeepsOrder(t: map<nat, Message>, ch: nat, ty: int, k: Key, l: Key)
    requires UniqueServer(t) && k in ListKeys(t, ch, ty) && l in ListKeys(t, ch, ty)
    ensures Lt(k, l) ==> Lt(Recount(k), Recount(l))
  {
  }

  lemma RecountAscends(t: map<nat, Message>, ch: nat, ty: int, list: seq<Key>)
    requires UniqueServer(t) && Ascending(list) && forall k :: k in list ==> k in ListKeys(t, ch, ty)
    ensures Ascending(RecountAll(list))
  {
    forall i, j | 0 <= i < j < |list| ensures Lt(RecountAll(list)[i], RecountAll(list)[j]) {
      assert list[i] in list && list[j] in list;
      RecountKeepsOrder(t, ch, ty, list[i], list[j]);
    }
  }

  lemma RecountKeys(t: map<nat, Message>, ch: nat, ty: int, list: seq<Key>)
    requires UniqueServer(t) && forall k :: k in list <==> k in ListKeys(t, ch, ty)
    ensures forall k :: k in RecountAll(list) <==> k in WindowKeys(t, ch, ty)
  {
    var recounted := RecountAll(list);
    forall k | k in recounted ensures k in WindowKeys(t, ch, ty) {
      var n :| 0 <= n < |recounted| && recounted[n] == k;
      assert list[n] in ListKeys(t, ch, ty);
    }
    forall k | k in WindowKeys(t, ch, ty) ensures k in recounted {
      var i :| i in t && InChannel(t[i], ch, ty) && WindowKey(i, t[i]) == k;
      assert ListKey(i, t[i]) in list;
      var n :| 0 <= n < |list| && list[n] == ListKey(i, t[i]);
      assert recounted[n] == k;
    }
  }

  /** Both sort keys list the rows in one order, because no row holds server id 0. */
  lemma OneDisplayOrder(t: map<nat, Message>, ch: nat, ty: int)
    requires UniqueServer(t)
    ensures Ids(Sorted(ListKeys(t, ch, ty))) == Ids(Sorted(WindowKeys(t, ch, ty)))
  {
    var list := Sorted(ListKeys(t, ch, ty));
    RecountAscends(t, ch, ty, list);
    RecountKeys(t, ch, ty, list);
    SortedIs(WindowKeys(t, ch, ty), RecountAll(list));
    assert Ids(RecountAll(list)) == Ids(list);
  }

  /** The whole channel, oldest first. */
  function Display(t: map<nat, Message>, ch: nat, ty: int): seq<int> {
    Ids(Sorted(WindowKeys(t, ch, ty)))
  }

  /** The display order is the message list read backwards. */
  lemma DisplayIsReversedList(t: map<nat, Message>, ch: nat, ty: int)
    requires UniqueServer(t)
    ensures Listing(t, ch, ty) == Reverse(Display(t, ch, ty))
  {
    OneDisplayOrder(t, ch, ty);
    ReverseIds(Sorted(ListKeys(t, ch, ty)));
  }

  lemma ReverseIds(s: seq<Key>)
    ensures Ids(Reverse(s)) == Reverse(Ids(s))
  {
  }

  /** Message `a` at key `i` is shown before `b` at key `j`: confirmed messages before those the server has
      not confirmed; confirmed ones by place in the timeline and then server id; the others by place and then
      age. */
  predicate ShownBefore(a: Message, i: int, b: Message, j: int) {
    if a.server.Some? then b.server.None? || a.pts < b.pts || (a.pts == b.pts && a.server.value < b.server.value)
    else b.server.None? && (a.pts < b.pts || (a.pts == b.pts && i < j))
  }

  /** Exactly the rows of the channel, each once. */
  ghost predicate ListsChannel(t: map<nat, Message>, ch: nat, ty: int, s: seq<int>) {
    && (forall i :: i in s ==> i >= 0 && i in t)
    && (forall i: nat :: i in s <==> i in t && t[i].channel == ch && t[i].channelType == ty)
    && (forall p, q :: 0 <= p < q < |s| ==> s[p] != s[q])
  }

  ghost predicate InShownOrder(t: map<nat, Message>, s: seq<int>) {
    forall p, q :: 0 <= p < q < |s| ==> RowBefore(t, s[p], s[q])
  }

  predicate RowBefore(t: map<nat, Message>, i: int, j: int) {
    i >= 0 && j >= 0 && var a: nat, b: nat := i, j; a in t && b in t && ShownBefore(t[a], a, t[b], b)
  }

  lemma KeysAreShownBefore(t: map<nat, Message>, i: nat, j: nat)
    requires UniqueServer(t) && i in t && j in t && i != j
    ensures Lt(WindowKey(i, t[i]), WindowKey(j, t[j])) <==> ShownBefore(t[i], i, t[j], j)
  {
  }

  /** The display order lists every message of the channel once, and no other, confirmed ones by timeline and
      then the unconfirmed ones; the message list is the same read backwards: newest first. */
  lemma DisplayOrder(t: map<nat, Message>, ch: nat, ty: int)
    requires UniqueServer(t)
    ensures
      ListsChannel(t, ch, ty, Display(t, ch, ty)) && InShownOrder(t, Display(t, ch, ty))
    ensures
      ListsChannel(t, ch, ty, Listing(t, ch, ty)) && InShownOrder(t, Reverse(Listing(t, ch, ty)))
  {
    DisplayListsChannel(t, ch, ty);
    DisplayInOrder(t, ch, ty);
    var d := Display(t, ch, ty);
    DisplayIsReversedList(t, ch, ty);
    ReversedListsChannel(t, ch, ty, d);
    assert Reverse(Reverse(d)) == d;
  }

  lemma DisplayKeys(t: map<nat, Message>, ch: nat, ty: int)
    ensures
      var keys, d := Sorted(WindowKeys(t, ch, ty)), Display(t, ch, ty);
      |d| == |keys| && forall n :: 0 <= n < |keys| ==> IsKeyOf(t, ch, ty, d[n], keys[n])
  {
    var keys, d := Sorted(WindowKeys(t, ch, ty)), Display(t, ch, ty);
    forall n | 0 <= n < |keys| ensures IsKeyOf(t, ch, ty, d[n], keys[n]) {
      assert keys[n] in WindowKeys(t, ch, ty);
    }
  }

  lemma DisplayListsChannel(t: map<nat, Message>, ch: nat, ty: int)
    ensures ListsChannel(t, ch, ty, Display(t, ch, ty))
  {
    var keys, d := Sorted(WindowKeys(t, ch, ty)), Display(t, ch, ty);
    DisplayKeys(t, ch, ty);
    forall i: nat | i in t && InChannel(t[i], ch, ty) ensures i in d {
      assert WindowKey(i, t[i]) in keys;
      var n :| 0 <= n < |keys| && keys[n] == WindowKey(i, t[i]);
      assert d[n] == i;
    }
    forall i | i in d ensures i >= 0 && var a: nat := i; a in t && t[a].channel == ch && t[a].channelType == ty {
      var n :| 0 <= n < |d| && d[n] == i;
      assert IsKeyOf(t, ch, ty, d[n], keys[n]);
    }
    forall p, q | 0 <= p < q < |d| ensures d[p] != d[q] {
      assert Lt(keys[p], keys[q]) && IsKeyOf(t, ch, ty, d[p], keys[p]) && IsKeyOf(t, ch, ty, d[q], keys[q]);
    }
  }

  lemma DisplayInOrder(t: map<nat, Message>, ch: nat, ty: int)
    requires UniqueServer(t)
    ensures InShownOrder(t, Display(t, ch, ty))
  {
    var keys, d := Sorted(WindowKeys(t, ch, ty)), Display(t, ch, ty);
    DisplayKeys(t, ch, ty);
    forall p, q | 0 <= p < q < |d| ensures RowBefore(t, d[p], d[q]) {
      assert Lt(keys[p], keys[q]) && IsKeyOf(t, ch, ty, d[p], keys[p]) && IsKeyOf(t, ch, ty, d[q], keys[q]);
      KeysAreShownBefore(t, d[p], d[q]);
    }
  }

  predicate IsKeyOf(t: map<nat, Message>, ch: nat, ty: int, i: int, k: Key) {
    i >= 0 && var a: nat := i; a in t && InChannel(t[a], ch, ty) && k == WindowKey(a, t[a])
  }

  lemma ReversedListsChannel(t: map<nat, Message>, ch: nat, ty: int, d: seq<int>)
    requires ListsChannel(t, ch, ty, d)
    ensures ListsChannel(t, ch, ty, Reverse(d))
  {
    var l := Reverse(d);
    forall i ensures i in l <==> i in d {
      if i in d {
        var n :| 0 <= n < |d| && d[n] == i;
        assert l[|d| - 1 - n] == i;
      }
    }
  }

  // ----- the window -----

  /** At most `before` elements below position `p`, the element there, and at most `after` above. */
  function Around(d: seq<int>, p: nat, before: nat, after: nat): seq<int>
    requires p < |d|
  {
    d[if before <= p then p - before else 0..if after <= |d| - 1 - p then p + 1 + after else |d|]
  }

  /** The window is the slice of the display order around the anchor's position, as many rows to
      either side as were asked for and exist; without the anchor it is empty. */
  lemma WindowIsSlice(t: map<nat, Message>, ch: nat, ty: int, server: nat, before: nat, after: nat)
    ensures
      var d, w := Display(t, ch, ty), ListAround(t, ch, ty, server, before, after);
      var anchor := FindAnchor(t, ch, ty, server);
      if anchor.None? then w == []
      else exists p: nat :: p < |d| && d[p] == anchor.value && w == Around(d, p, before, after)
  {
    var anchor := FindAnchor(t, ch, ty, server);
    if anchor.Some? {
      var a := WindowKey(anchor.value, t[anchor.value]);
      WindowAround(t, ch, ty, a, before, after);
      var d, p := Display(t, ch, ty), |Below(WindowKeys(t, ch, ty), a)|;
      assert d[p] == a.k4 == anchor.value;
      assert ListAround(t, ch, ty, server, before, after) == Around(d, p, before, after);
    }
  }

  lemma WindowAround(t: map<nat, Message>, ch: nat, ty: int, a: Key, before: nat, after: nat)
    requires a in WindowKeys(t, ch, ty)
    ensures
      var keys, d := WindowKeys(t, ch, ty), Display(t, ch, ty);
      var p := |Below(keys, a)|;
      && p < |d| && d[p] == a.k4
      && Ids(Sorted(Elements(Take(Reverse(Sorted(Below(keys, a))), before)))) + [a.k4]
        + Ids(Take(Sorted(Above(keys, a)), after))
         == Around(d, p, before, after)
  {
    var keys := WindowKeys(t, ch, ty);
    SortedSplits(keys, a);
    LastKeysSorted(Below(keys, a), before);
    WindowOfParts(Sorted(Below(keys, a)), a, Sorted(Above(keys, a)), before, after);
  }

  lemma WindowOfParts(lower: seq<Key>, a: Key, upper: seq<Key>, before: nat, after: nat)
    ensures Ids(lower + [a] + upper)[|lower|] == a.k4
    ensures
      Ids(Last(lower, before)) + [a.k4] + Ids(Take(upper, after)) ==
      Around(Ids(lower + [a] + upper), |lower|, before, after)
  {
    var d := Ids(lower + [a] + upper);
    assert Ids(Last(lower, before)) == d[if before <= |lower| then |lower| - before else 0..|lower|];
    assert Ids(Take(upper, after)) == d[|lower| + 1..if after <= |upper| then |lower| + 1 + after else |d|];
  }

  // ----- pages -----

  /** Read page after page, from `offset` on, until one comes back empty. */
  function AllPages(t: map<nat, Message>, ch: nat, ty: int, limit: nat, offset: nat): seq<int>
    requires limit > 0
    decreases |Listing(t, ch, ty)| - offset
  {
    var page := ListMessages(t, ch, ty, limit, offset);
    if page == [] then [] else page + AllPages(t, ch, ty, limit, offset + limit)
  }

  /** Pages of any size tile the list: read to the end they give every row once, newest first. */
  lemma {:induction false} PagesTile(t: map<nat, Message>, ch: nat, ty: int, limit: nat, offset: nat)
    requires limit > 0
    ensures
      AllPages(t, ch, ty, limit, offset) ==
      if offset <= |Listing(t, ch, ty)| then Listing(t, ch, ty)[offset..] else []
    decreases |Listing(t, ch, ty)| - offset
  {
    var all := Listing(t, ch, ty);
    PageThenRest(all, limit, offset);
    if offset < |all| {
      PagesTile(t, ch, ty, limit, offset + limit);
      assert AllPages(t, ch, ty, limit, offset) ==
             Page(all, limit, offset) + AllPages(t, ch, ty, limit, offset + limit);
    } else {
      assert AllPages(t, ch, ty, limit, offset) == [];
    }
  }

  lemma PageThenRest(s: seq<int>, limit: nat, offset: nat)
    requires limit > 0
    ensures Page(s, limit, offset) == [] <==> offset >= |s|
    ensures
      offset < |s| ==>
        Page(s, limit, offset) + (if offset + limit <= |s| then s[offset + limit..] else []) == s[offset..]
  {
  }

  // ----- the keyset sweep over channel identifiers -----

  type ChannelId = (nat, int)

  function IdKey(c: ChannelId): Key { Key(c.0, c.1, 0, 0) }

  /** Keys of the visible channels after the cursor. */
  function VisibleAfter(t: map<nat, Channel>, cursor: Key): set<Key> {
    set c | c in t && !t[c].hidden && Gt(IdKey((c, t[c].channelType)), cursor) :: IdKey((c, t[c].channelType))
  }

  function Clamp(limit: nat): (r: nat)
    ensures 1 <= r <= 500
  {
    if limit < 1 then 1 else if limit > 500 then 500 else limit
  }

  function IdentifiersAfter(t: map<nat, Channel>, cursor: Key, limit: nat): seq<Key> {
    Take(Sorted(VisibleAfter(t, cursor)), Clamp(limit))
  }

  /** Follow the last identifier of each page, page `n` being read from table `ts[n]`; stop at an
      empty page or when the tables run out. */
  function Sweep(ts: seq<map<nat, Channel>>, cursor: Key, limit: nat): seq<Key> {
    if ts == [] then []
    else
      var page := IdentifiersAfter(ts[0], cursor, limit);
      if page == [] then [] else page + Sweep(ts[1..], page[|page| - 1], limit)
  }

  /** The sweep has met an empty page. */
  predicate Finished(ts: seq<map<nat, Channel>>, cursor: Key, limit: nat) {
    ts != [] && (
      var page := IdentifiersAfter(ts[0], cursor, limit);
      page == [] || Finished(ts[1..], page[|page| - 1], limit))
  }

  /** Present and visible in every table the sweep may read. */
  ghost predicate AlwaysVisible(ts: seq<map<nat, Channel>>, c: nat, ty: int) {
    forall n :: 0 <= n < |ts| ==> c in ts[n] && !ts[n][c].hidden && ts[n][c].channelType == ty
  }

  /** A page of the sweep: visible channels after the cursor in ascending order, as many as asked for, at least
      one and at most 500, if there are; those left out come after all of them. */
  lemma IdentifiersPage(t: map<nat, Channel>, afterId: nat, afterType: int, limit: nat)
    ensures
      var page := IdentifiersAfter(t, Key(afterId, afterType, 0, 0), limit);
      && Ascending(page) && |page| <= (if limit == 0 then 1 else if limit > 500 then 500 else limit)
      && (forall k :: k in page ==>
            exists c: nat :: IsAfter(t, c, afterId, afterType) && k == Key(c, t[c].channelType, 0, 0))
      && (forall c: nat :: IsAfter(t, c, afterId, afterType) && Key(c, t[c].channelType, 0, 0) !in page ==>
            |page| == (if limit == 0 then 1 else if limit > 500 then 500 else limit)
            && forall n :: 0 <= n < |page| ==> Lt(page[n], Key(c, t[c].channelType, 0, 0)))
  {
    var cursor := Key(afterId, afterType, 0, 0);
    var all, page := Sorted(VisibleAfter(t, cursor)), IdentifiersAfter(t, cursor, limit);
    forall k | k in page
      ensures exists c: nat :: IsAfter(t, c, afterId, afterType) && k == Key(c, t[c].channelType, 0, 0)
    {
      assert k in all;
      var c :| c in t && !t[c].hidden && Gt(IdKey((c, t[c].channelType)), cursor) && k == IdKey((c, t[c].channelType));
      assert IsAfter(t, c, afterId, afterType);
    }
    forall c: nat | IsAfter(t, c, afterId, afterType) && Key(c, t[c].channelType, 0, 0) !in page
      ensures |page| == Clamp(limit) && forall n :: 0 <= n < |page| ==> Lt(page[n], Key(c, t[c].channelType, 0, 0))
    {
      assert IdKey((c, t[c].channelType)) in VisibleAfter(t, cursor);
      assert IdKey((c, t[c].channelType)) in all;
      var k :| 0 <= k < |all| && all[k] == IdKey((c, t[c].channelType));
      assert k >= |page|;
    }
  }

  /** A channel not hidden, with a greater identifier. */
  predicate IsAfter(t: map<nat, Channel>, c: nat, afterId: nat, afterType: int) {
    c in t && !t[c].hidden && (c > afterId || (c == afterId && t[c].channelType > afterType))
  }

  lemma PageAscends(t: map<nat, Channel>, cursor: Key, limit: nat)
    ensures Ascending([cursor] + IdentifiersAfter(t, cursor, limit))
  {
    var sorted := Sorted(VisibleAfter(t, cursor));
    forall i | 0 <= i < |sorted| ensures Lt(cursor, sorted[i]) { assert sorted[i] in sorted; }
    AscendingConcat([cursor], IdentifiersAfter(t, cursor, limit));
  }

  /** Ascending runs that share an end point join. */
  lemma AscendingJoins(cursor: Key, page: seq<Key>, rest: seq<Key>)
    requires page != [] && Ascending([cursor] + page) && Ascending([page[|page| - 1]] + rest)
    ensures Ascending([cursor] + (page + rest))
  {
    var front, back := [cursor] + page, [page[|page| - 1]] + rest;
    assert rest == back[1..];
    forall i, j | 0 <= i < |front| && 0 <= j < |rest| ensures Lt(front[i], rest[j]) {
      assert back[j + 1] == rest[j] && Lt(back[0], back[j + 1]);
      assert front[|front| - 1] == back[0];
    }
    AscendingConcat(front, rest);
    assert front + rest == [cursor] + (page + rest);
  }

  /** Every identifier comes once, in ascending order, whatever happens between pages. */
  lemma {:induction false} SweepAscends(ts: seq<map<nat, Channel>>, cursor: Key, limit: nat)
    ensures Ascending([cursor] + Sweep(ts, cursor, limit))
  {
    if ts != [] {
      var page := IdentifiersAfter(ts[0], cursor, limit);
      if page != [] {
        PageAscends(ts[0], cursor, limit);
        SweepAscends(ts[1..], page[|page| - 1], limit);
        AscendingJoins(cursor, page, Sweep(ts[1..], page[|page| - 1], limit));
      }
    }
  }

  /** A channel that stays visible throughout is visited before the sweep can finish. */
  lemma {:induction false} SweepVisits(ts: seq<map<nat, Channel>>, cursor: Key, limit: nat, c: nat, ty: int)
    requires AlwaysVisible(ts, c, ty) && Gt(IdKey((c, ty)), cursor) && Finished(ts, cursor, limit)
    ensures IdKey((c, ty)) in Sweep(ts, cursor, limit)
  {
    var key := IdKey((c, ty));
    var sorted, page := Sorted(VisibleAfter(ts[0], cursor)), IdentifiersAfter(ts[0], cursor, limit);
    assert ts[0][c].channelType == ty;
    assert key in VisibleAfter(ts[0], cursor);
    assert key in sorted;
    if key !in page {
      var n :| 0 <= n < |sorted| && sorted[n] == key;
      assert n >= |page| > 0;
      assert Lt(page[|page| - 1], key);
      assert AlwaysVisible(ts[1..], c, ty);
      SweepVisits(ts[1..], page[|page| - 1], limit, c, ty);
    }
  }

  /** With finitely many identifiers ever in use the sweep finishes: it cannot read more pages than
      there are identifiers, plus one. */
  lemma {:induction false} SweepTerminates(ts: seq<map<nat, Channel>>, cursor: Key, limit: nat, universe: set<Key>)
    requires forall n :: 0 <= n < |ts| ==> VisibleAfter(ts[n], cursor) <= universe
    requires |ts| > |universe|
    ensures Finished(ts, cursor, limit)
    decreases |ts|
  {
    var sorted, page := Sorted(VisibleAfter(ts[0], cursor)), IdentifiersAfter(ts[0], cursor, limit);
    if page != [] {
      var last := page[|page| - 1];
      assert last in sorted;
      forall n | 0 <= n < |ts[1..]| ensures VisibleAfter(ts[1..][n], last) <= universe - {last} {
        assert ts[1..][n] == ts[n + 1];
        assert VisibleAfter(ts[n + 1], last) <= VisibleAfter(ts[n + 1], cursor);
      }
      SweepTerminates(ts[1..], last, limit, universe - {last});
    }
  }
}
