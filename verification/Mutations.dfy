/** Timeline mutations waiting for their message, kept in a sorted key-value tree shared with other
    keys: the key and value codec, and the store as a map from slots to mutations. */
module Mutations {
  import opened Tables
  import opened Codec
  import opened Order

  const U64_BOUND: nat := 0x1_0000_0000_0000_0000

  type UInt64 = n: nat | n < U64_BOUND

  /** The message a mutation is for. */
  datatype Target = Target(channel: UInt64, channelType: int, message: UInt64)

  datatype Mutation = Mutation(target: Target, eventId: UInt64, pts: UInt64, event: seq<Byte>)

  const NAMESPACE := "__pending_timeline_mutation__:v1"

  /** Every key of this store, and no other key of the tree, starts like this. */
  const ROOT := NAMESPACE + ":"

  function Prefix(t: Target): string {
    ROOT + (SignedDecimal(t.channelType) + ":" + (Padded(t.channel, 20) + ":" + Padded(t.message, 20) + ":"))
  }

  function SlotKey(t: Target, eventId: UInt64): string {
    ROOT + (SignedDecimal(t.channelType) + ":"
      + (Padded(t.channel, 20) + ":" + Padded(t.message, 20) + ":" + Padded(eventId, 20)))
  }

  function Encode(m: Mutation): seq<Byte> {
    [1] + ToBytes(m.eventId, 8) + ToBytes(m.pts, 8) + m.event
  }

  /** A value under 18 bytes or of another version is corrupt. */
  function Decode(t: Target, value: seq<Byte>): Result<Mutation> {
    if |value| < 18 || value[0] != 1 then Err(Storage)
    else
      FromBytesBounded(value[1..9], 8);
      FromBytesBounded(value[9..17], 8);
      WidthsFit();
      Ok(Mutation(t, FromBytes(value[1..9]), FromBytes(value[9..17]), value[17..]))
  }

  lemma {:induction false} FromBytesBounded(bytes: seq<Byte>, width: nat)
    requires |bytes| == width
    ensures FromBytes(bytes) < Power(256, width)
  {
    if width > 0 { FromBytesBounded(bytes[..width - 1], width - 1); }
  }

  /** Eight bytes hold exactly the 64-bit numbers and twenty digits hold all of them. */
  lemma WidthsFit()
    ensures Power(256, 8) == U64_BOUND && U64_BOUND <= Power(10, 20)
  {
    assert Power(256, 4) == 0x1_0000_0000;
    assert Power(256, 8) == 256 * (256 * (256 * (256 * Power(256, 4))));
    assert Power(10, 5) == 100_000;
    assert Power(10, 10) == 10 * (10 * (10 * (10 * (10 * Power(10, 5)))));
    assert Power(10, 15) == 10 * (10 * (10 * (10 * (10 * Power(10, 10)))));
    assert Power(10, 20) == 10 * (10 * (10 * (10 * (10 * Power(10, 15)))));
  }

  // ----- codec properties -----

  /** A value is the version, 1, the event id and the pts in eight bytes each, most significant first, and
      the event. Decoding gives back an encoded mutation exactly when its event is not empty. */
  lemma DecodeEncode(m: Mutation)
    ensures Decode(m.target, Encode(m)) == (if m.event != [] then Ok(m) else Err(Storage))
    ensures
      var value := Encode(m);
      && |value| == 17 + |m.event| && value[0] == 1 && FromBytes(value[1..9]) == m.eventId
      && FromBytes(value[9..17]) == m.pts && value[17..] == m.event
  {
    var value := Encode(m);
    assert value[1..9] == ToBytes(m.eventId, 8) && value[9..17] == ToBytes(m.pts, 8) && value[17..] == m.event;
    WidthsFit();
    BytesRoundTrip(m.eventId, 8);
    BytesRoundTrip(m.pts, 8);
  }

  /** The values that decode are exactly those that some mutation with an event is encoded as: at least 18
      bytes, the first of them 1. */
  lemma EncodeDecode(t: Target, value: seq<Byte>)
    ensures Decode(t, value).Ok? <==> |value| >= 18 && value[0] == 1
    ensures
      Decode(t, value).Ok? ==>
        var m := Decode(t, value).value;
        m.target == t && m.event != [] && Encode(m) == value
  {
    if |value| >= 18 && value[0] == 1 {
      BytesReadBack(value[1..9]);
      BytesReadBack(value[9..17]);
      assert value == [1] + value[1..9] + value[9..17] + value[17..];
    }
  }

  /** A key names the channel type, the channel, the message and the event id, in this order. */
  lemma KeyText(t: Target, eventId: UInt64)
    ensures
      SlotKey(t, eventId) ==
      "__pending_timeline_mutation__:v1:"
      + (SignedDecimal(t.channelType) + ":"
         + (Padded(t.channel, 20) + ":" + Padded(t.message, 20) + ":" + Padded(eventId, 20)))
    ensures ReadDecimal(Padded(t.channel, 20)) == t.channel && ReadDecimal(Padded(eventId, 20)) == eventId
  {
    WidthsFit();
    PaddedReadsBack(t.channel, 20);
    PaddedReadsBack(eventId, 20);
  }

  /** A key starts with a target's prefix exactly when it is for that target. */
  lemma PrefixMatchesTarget(t: Target, u: Target, eventId: UInt64)
    ensures Prefix(u) <= SlotKey(t, eventId) <==> t == u
  {
    var own := Padded(t.channel, 20) + ":" + Padded(t.message, 20) + ":";
    var key, prefix := SlotKey(t, eventId), Prefix(u);
    if t == u {
      assert key == prefix + Padded(eventId, 20);
    }
    if prefix <= key {
      var other := Padded(u.channel, 20) + ":" + Padded(u.message, 20) + ":";
      var a, b := SignedDecimal(t.channelType), SignedDecimal(u.channelType);
      assert key[|ROOT|..] == a + ":" + (own + Padded(eventId, 20));
      assert prefix[|ROOT|..] == b + ":" + other;
      FieldsMatch(':', a, own + Padded(eventId, 20), b, other);
      SignedDecimalIsInjective(t.channelType, u.channelType);
      assert other == own by { assert other == (own + Padded(eventId, 20))[..|own|] == own; }
      assert own[..20] == Padded(t.channel, 20) && other[..20] == Padded(u.channel, 20);
      assert own[21..41] == Padded(t.message, 20) && other[21..41] == Padded(u.message, 20);
      WidthsFit();
      PaddedIsInjective(t.channel, u.channel, 20);
      PaddedIsInjective(t.message, u.message, 20);
    }
  }

  /** Different slots have different keys. */
  lemma SlotKeyIsInjective(t: Target, e: UInt64, u: Target, f: UInt64)
    requires SlotKey(t, e) == SlotKey(u, f)
    ensures t == u && e == f
  {
    assert Prefix(u) <= SlotKey(u, f) by { PrefixMatchesTarget(u, u, f); }
    PrefixMatchesTarget(t, u, e);
    SlotKeyEnds(t, e);
    SlotKeyEnds(u, f);
    WidthsFit();
    PaddedIsInjective(e, f, 20);
  }

  lemma SlotKeyEnds(t: Target, e: UInt64)
    ensures |SlotKey(t, e)| >= 20 && SlotKey(t, e)[|SlotKey(t, e)| - 20..] == Padded(e, 20)
  {
  }

  lemma SlotKeysAreRooted(t: Target, e: UInt64)
    ensures ROOT <= SlotKey(t, e)
  {
  }

  // ----- the tree as a set of live mutations, one to a slot -----

  function KeyOf(m: Mutation): string { SlotKey(m.target, m.eventId) }

  predicate SameSlot(m: Mutation, n: Mutation) { m.target == n.target && m.eventId == n.eventId }

  lemma SameKeySameSlot(m: Mutation, n: Mutation)
    ensures KeyOf(m) == KeyOf(n) <==> SameSlot(m, n)
  {
    if KeyOf(m) == KeyOf(n) { SlotKeyIsInjective(m.target, m.eventId, n.target, n.eventId); }
  }

  /** `at` gives the mutation behind every rooted key of the tree. */
  ghost predicate Represents(tree: map<string, seq<Byte>>, at: map<string, Mutation>) {
    && at.Keys == (set k | k in tree && ROOT <= k)
    && (forall k :: k in at ==> KeyOf(at[k]) == k && tree[k] == Encode(at[k]))
  }

  /** `m` is stored, and no other mutation is in its slot. */
  ghost predicate Holds(at: map<string, Mutation>, m: Mutation) { KeyOf(m) in at && at[KeyOf(m)] == m }

  // ----- listing -----

  function SortKey(m: Mutation): Key { Key(m.pts, m.eventId, 0, 0) }

  /** Strictly ascending by (pts, event id). */
  predicate InOrder(rows: seq<Mutation>) {
    forall i, j :: 0 <= i < j < |rows| ==> Lt(SortKey(rows[i]), SortKey(rows[j]))
  }

  /** Insert into an ascending sequence before the first greater row. */
  function Insert(rows: seq<Mutation>, m: Mutation): (r: seq<Mutation>)
    ensures forall x :: x in r <==> x in rows || x == m
  {
    if rows == [] then [m]
    else if Lt(SortKey(m), SortKey(rows[0])) then [m] + rows
    else [rows[0]] + Insert(rows[1..], m)
  }

  /** sort_by_key. */
  function Sort(rows: seq<Mutation>): (r: seq<Mutation>)
    ensures forall x :: x in r <==> x in rows
  {
    if rows == [] then [] else Insert(Sort(rows[..|rows| - 1]), rows[|rows| - 1])
  }

  lemma {:induction false} InsertKeepsOrder(rows: seq<Mutation>, m: Mutation)
    requires InOrder(rows) && forall x :: x in rows ==> SortKey(x) != SortKey(m)
    ensures InOrder(Insert(rows, m))
  {
    if rows != [] && !Lt(SortKey(m), SortKey(rows[0])) {
      InsertKeepsOrder(rows[1..], m);
      var rest := Insert(rows[1..], m);
      forall j | 0 <= j < |rest| ensures Lt(SortKey(rows[0]), SortKey(rest[j])) {
        assert rest[j] in rest;
        assert rows[0] in rows;
      }
    }
  }

  lemma {:induction false} SortOrders(rows: seq<Mutation>)
    requires forall i, j :: 0 <= i < j < |rows| ==> SortKey(rows[i]) != SortKey(rows[j])
    ensures InOrder(Sort(rows))
  {
    if rows != [] {
      SortOrders(rows[..|rows| - 1]);
      InsertKeepsOrder(Sort(rows[..|rows| - 1]), rows[|rows| - 1]);
    }
  }

  /** A prefix scan visits exactly the keys of the target's mutations, and each value decodes to its
      mutation unless the event is empty. */
  lemma ScannedKey(tree: map<string, seq<Byte>>, at: map<string, Mutation>, t: Target, k: string)
    requires Represents(tree, at) && k in tree
    ensures Prefix(t) <= k <==> k in at && at[k].target == t
    ensures k in at && at[k].target == t ==> DecodesTo(tree[k], at[k], t)
  {
    if Prefix(t) <= k { assert ROOT <= k by { assert ROOT <= Prefix(t); } }
    if k in at {
      PrefixMatchesTarget(at[k].target, t, at[k].eventId);
      DecodeEncode(at[k]);
    }
  }

  predicate DecodesTo(value: seq<Byte>, m: Mutation, t: Target) {
    m.target == t && Decode(t, value) == (if m.event != [] then Ok(m) else Err(Storage))
  }

  /** The loop of a prefix scan: decoded rows and corrupt keys. */
  method Scan(tree: map<string, seq<Byte>>, ghost at: map<string, Mutation>, t: Target, keys: set<string>)
    returns (rows: seq<Mutation>, corrupt: set<string>)
    requires forall k :: k in keys ==> k in tree && k in at && DecodesTo(tree[k], at[k], t)
    requires forall k, l :: k in keys && l in keys && k != l ==> at[k].eventId != at[l].eventId
    ensures corrupt == set k | k in keys && at[k].event == []
    ensures forall k :: k in keys && at[k].event != [] ==> at[k] in rows
    ensures forall m :: m in rows ==> m.event != [] && exists k :: k in keys && at[k] == m
    ensures forall i, j :: 0 <= i < j < |rows| ==> rows[i].eventId != rows[j].eventId
  {
    var todo := keys;
    rows, corrupt := [], {};
    while todo != {}
      invariant todo <= keys
      invariant corrupt == set k | k in keys - todo && at[k].event == []
      invariant forall k :: k in keys - todo && at[k].event != [] ==> at[k] in rows
      invariant forall i :: 0 <= i < |rows| ==> rows[i].event != [] && exists k :: k in keys - todo && at[k] == rows[i]
      invariant forall i, j :: 0 <= i < j < |rows| ==> rows[i].eventId != rows[j].eventId
      decreases todo
    {
      var k :| k in todo;
      assert DecodesTo(tree[k], at[k], t);
      match Decode(t, tree[k]) {
        case Ok(row) => rows := rows + [row];
        case Err(_) => corrupt := corrupt + {k};
      }
      todo := todo - {k};
    }
  }

  class MutationStore {
    var tree: map<string, seq<Byte>>
    ghost var at: map<string, Mutation>

    ghost predicate Valid() reads this { Represents(tree, at) }

    /** `m` is in the store, and alone in its slot. */
    ghost predicate Live(m: Mutation) reads this { Holds(at, m) }

    constructor ()
      ensures Valid() && forall m :: !Live(m)
    {
      tree, at := map[], map[];
    }

    /** Replaces whatever was in the slot. The engine: call 0 opens the tree, 1 inserts, 2 flushes; after a
        failed flush the mutation is in the tree and the caller is told it is not safe. */
    method Put(m: Mutation, io: nat -> bool) returns (r: Result<()>)
      requires Valid()
      modifies this
      ensures Valid() && r == if io(0) && io(1) && io(2) then Ok(()) else Err(Storage)
      ensures
        forall n :: Live(n) <==>
          if io(0) && io(1) then n == m || (old(Live(n)) && !SameSlot(n, m)) else old(Live(n))
    {
      if !io(0) || !io(1) { return Err(Storage); }
      SlotKeysAreRooted(m.target, m.eventId);
      forall n ensures KeyOf(n) == KeyOf(m) <==> SameSlot(n, m) { SameKeySameSlot(n, m); }
      tree := tree[SlotKey(m.target, m.eventId) := Encode(m)];
      at := at[KeyOf(m) := m];
      r := if io(2) then Ok(()) else Err(Storage);
    }

    /** Empties the slot; the pts and event of the argument do not matter. */
    method Delete(m: Mutation, io: nat -> bool) returns (r: Result<()>)
      requires Valid()
      modifies this
      ensures Valid() && r == if io(0) && io(1) && io(2) then Ok(()) else Err(Storage)
      ensures forall n :: Live(n) <==> old(Live(n)) && !(io(0) && io(1) && SameSlot(n, m))
    {
      if !io(0) || !io(1) { return Err(Storage); }
      forall n ensures KeyOf(n) == KeyOf(m) <==> SameSlot(n, m) { SameKeySameSlot(n, m); }
      tree := tree - {SlotKey(m.target, m.eventId)};
      at := at - {KeyOf(m)};
      r := if io(2) then Ok(()) else Err(Storage);
    }

    /** Another user of the same tree. */
    method KvPut(key: string, value: seq<Byte>)
      requires Valid() && !(ROOT <= key)
      modifies this
      ensures Valid() && forall n :: Live(n) <==> old(Live(n))
    {
      tree := tree[key := value];
    }

    /** Exactly the live mutations of one target with a non-empty event, strictly ascending by
        (pts, event id), unless opening or reading the tree fails. Those with an empty event do not decode
        and are removed as corrupt where `removes` says the removal succeeds; a failing one is passed over.
        No other target is touched. */
    method List(t: Target, io: nat -> bool, removes: string -> bool) returns (r: Result<seq<Mutation>>)
      requires Valid()
      modifies this
      ensures Valid() && (r.Err? <==> !(io(0) && io(1)))
      ensures r.Err? ==> forall m :: Live(m) <==> old(Live(m))
      ensures r.Ok? ==> forall m :: m in r.value <==> old(Live(m)) && m.target == t && m.event != []
      ensures
        r.Ok? ==>
          forall i, j :: 0 <= i < j < |r.value| ==>
            r.value[i].pts < r.value[j].pts
            || (r.value[i].pts == r.value[j].pts && r.value[i].eventId < r.value[j].eventId)
      ensures
        r.Ok? ==>
          forall m :: Live(m) <==> old(Live(m)) && !(m.target == t && m.event == [] && removes(KeyOf(m)))
    {
      if !io(0) || !io(1) { return Err(Storage); }
      var rows, corrupt := Read(t);
      var removed := set k | k in corrupt && removes(k);
      CorruptRemoved(tree, at, t, removed, removes);
      tree := tree - removed;
      at := at - removed;
      r := Ok(rows);
    }

    /** The prefix scan: the decoded mutations in order, and the keys of those that do not decode. */
    method Read(t: Target) returns (rows: seq<Mutation>, corrupt: set<string>)
      requires Valid()
      ensures InOrder(rows) && forall m :: m in rows <==> Live(m) && m.target == t && m.event != []
      ensures corrupt == set k | k in at && at[k].target == t && at[k].event == []
    {
      var prefix := Prefix(t);
      var keys := set k | k in tree && prefix <= k;
      forall k | k in tree ensures k in keys <==> k in at && at[k].target == t { ScannedKey(tree, at, t, k); }
      forall k | k in keys ensures DecodesTo(tree[k], at[k], t) { ScannedKey(tree, at, t, k); }
      rows, corrupt := Scan(tree, at, t, keys);
      RowsAreLive(tree, at, t, keys, rows);
      SortOrders(rows);
      rows := Sort(rows);
    }
  }

  lemma CorruptRemoved(tree: map<string, seq<Byte>>, at: map<string, Mutation>, t: Target, removed: set<string>,
                       removes: string -> bool)
    requires Represents(tree, at)
    requires removed == set k | k in at && at[k].target == t && at[k].event == [] && removes(k)
    ensures Represents(tree - removed, at - removed)
    ensures
      forall m :: Holds(at - removed, m) <==> Holds(at, m) && !(m.target == t && m.event == [] && removes(KeyOf(m)))
  {
  }

  lemma RowsAreLive(tree: map<string, seq<Byte>>, at: map<string, Mutation>, t: Target, keys: set<string>,
                    rows: seq<Mutation>)
    requires Represents(tree, at) && keys == set k | k in at && at[k].target == t
    requires forall k :: k in keys && at[k].event != [] ==> at[k] in rows
    requires forall m :: m in rows ==> m.event != [] && exists k :: k in keys && at[k] == m
    ensures forall m :: m in rows <==> Holds(at, m) && m.target == t && m.event != []
  {
  }
}
