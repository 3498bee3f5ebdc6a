/** The receive pipeline: batches of sync items deduplicated over a sliding window of recent keys,
    and the loops that drain and apply them. */
module Pipeline {
  import opened Tables
  import opened Codec
  import opened Order

  datatype Item = Item(entityId: string, version: nat, deleted: bool, payload: string)

  datatype Batch = Batch(entityType: string, scope: Option<string>, items: seq<Item>)

  datatype Stats = Stats(queued: nat, dropped: nat)

  function DedupeKey(entityType: string, scope: Option<string>, item: Item): string {
    entityType + "|" + (if scope.Some? then scope.value else "") + "|" + item.entityId + "|"
    + Decimal(item.version) + "|" + (if item.deleted then "true" else "false")
  }

  predicate NoBar(s: string) { '|' !in s }

  /** The scope as it enters the key: none and the empty one are the same. */
  function ScopeText(scope: Option<string>): string { if scope.Some? then scope.value else "" }

  /** Two items have one key exactly when they are alike in kind, scope, id, version and deletion mark, as long
      as the texts hold no bar. */
  lemma DedupeKeyIsInjective(
    e: string, scope: Option<string>, item: Item, f: string, other: Option<string>, item': Item)
    requires NoBar(e) && NoBar(f) && NoBar(ScopeText(scope)) && NoBar(ScopeText(other))
    requires NoBar(item.entityId) && NoBar(item'.entityId)
    ensures
      DedupeKey(e, scope, item) == DedupeKey(f, other, item') <==>
      && e == f && ScopeText(scope) == ScopeText(other) && item.entityId == item'.entityId
      && item.version == item'.version && item.deleted == item'.deleted
  {
    if DedupeKey(e, scope, item) == DedupeKey(f, other, item') {
      var tail, tail' := KeyTail(item), KeyTail(item');
      KeyParts(e, scope, item);
      KeyParts(f, other, item');
      FieldsMatch('|', e, ScopeText(scope) + "|" + (item.entityId + "|" + tail),
                  f, ScopeText(other) + "|" + (item'.entityId + "|" + tail'));
      FieldsMatch('|', f, ScopeText(other) + "|" + (item'.entityId + "|" + tail'),
                  e, ScopeText(scope) + "|" + (item.entityId + "|" + tail));
      FieldsMatch('|', ScopeText(scope), item.entityId + "|" + tail, ScopeText(other), item'.entityId + "|" + tail');
      FieldsMatch('|', item.entityId, tail, item'.entityId, tail');
      VersionsPass(item, item');
    }
  }

  function KeyTail(item: Item): string { Decimal(item.version) + "|" + (if item.deleted then "true" else "false") }

  lemma KeyParts(e: string, scope: Option<string>, item: Item)
    ensures DedupeKey(e, scope, item) == e + "|" + (ScopeText(scope) + "|" + (item.entityId + "|" + KeyTail(item)))
  {
  }

  /** Whatever the texts, another version of an item, or its deletion, has another key. */
  lemma VersionsPass(item: Item, item': Item)
    requires KeyTail(item') <= KeyTail(item)
    ensures item.version == item'.version && item.deleted == item'.deleted
  {
    var a, b := if item.deleted then "true" else "false", if item'.deleted then "true" else "false";
    FieldsMatch('|', Decimal(item.version), a, Decimal(item'.version), b);
    DecimalIsInjective(item.version, item'.version);
    assert a[0] == (if item.deleted then 't' else 'f') && b[0] == (if item'.deleted then 't' else 'f');
  }

  lemma NewVersionIsNew(e: string, scope: Option<string>, item: Item, item': Item)
    requires item.entityId == item'.entityId && (item.version != item'.version || item.deleted != item'.deleted)
    ensures DedupeKey(e, scope, item) != DedupeKey(e, scope, item')
  {
    KeyEnds(e, scope, item);
    KeyEnds(e, scope, item');
    if DedupeKey(e, scope, item) == DedupeKey(e, scope, item') { VersionsPass(item, item'); }
  }

  lemma KeyEnds(e: string, scope: Option<string>, item: Item)
    ensures
      var n, key := |e| + |ScopeText(scope)| + |item.entityId| + 3, DedupeKey(e, scope, item);
      n <= |key| && key[n..] == KeyTail(item)
  {
    var head := e + "|" + ScopeText(scope) + "|" + item.entityId + "|";
    assert DedupeKey(e, scope, item) == head + KeyTail(item);
  }

  // ----- the pipeline as a value: what is queued, and every key ever accepted -----

  datatype Pipe = Pipe(queue: seq<Batch>, history: seq<string>)

  /** The keys a new item is compared with: the last `limit` accepted ones. */
  function Window(history: seq<string>, limit: nat): seq<string> { Last(history, limit) }

  /** The items kept of a list, and the history after them; an item is dropped exactly when its key
      is in the window at its turn. */
  function Sift(history: seq<string>, limit: nat, entityType: string, scope: Option<string>, items: seq<Item>)
    : (seq<Item>, seq<string>)
  {
    if items == [] then ([], history)
    else
      var (kept, before) := Sift(history, limit, entityType, scope, items[..|items| - 1]);
      var last := items[|items| - 1];
      var key := DedupeKey(entityType, scope, last);
      if key in Window(before, limit) then (kept, before) else (kept + [last], before + [key])
  }

  function Enqueued(p: Pipe, limit: nat, entityType: string, scope: Option<string>, items: seq<Item>): Pipe {
    var (kept, after) := Sift(p.history, limit, entityType, scope, items);
    Pipe(if kept == [] then p.queue else p.queue + [Batch(entityType, scope, kept)], after)
  }

  class ReceivePipeline {
    var queue: seq<Batch>
    var recentKeys: set<string>
    var recentOrder: seq<string>
    const limit: nat
    ghost var history: seq<string>

    /** The set and the deque hold the same keys without repeats: the last `limit` accepted ones. */
    ghost predicate Valid() reads this {
      && limit >= 512
      && recentOrder == Window(history, limit)
      && recentKeys == (set k | k in recentOrder)
      && NoRepeats(recentOrder)
    }

    ghost function Model(): Pipe reads this { Pipe(queue, history) }

    constructor (limit: nat)
      ensures Valid() && Model() == Pipe([], []) && this.limit == if limit < 512 then 512 else limit
    {
      this.limit := if limit < 512 then 512 else limit;
      queue, recentKeys, recentOrder, history := [], {}, [], [];
    }

    method Enqueue(entityType: string, scope: Option<string>, items: seq<Item>) returns (stats: Stats)
      requires Valid()
      modifies this
      ensures Valid() && Model() == Enqueued(old(Model()), limit, entityType, scope, items)
      ensures stats.queued == |history| - |old(history)| && stats.queued + stats.dropped == |items|
    {
      var accepted: seq<Item> := [];
      var dropped := 0;
      for n := 0 to |items|
        invariant Valid() && queue == old(queue)
        invariant (accepted, history) == Sift(old(history), limit, entityType, scope, items[..n])
        invariant |accepted| + dropped == n && |history| == |old(history)| + |accepted|
      {
        var key := DedupeKey(entityType, scope, items[n]);
        assert items[..n + 1][..n] == items[..n] && items[..n + 1][n] == items[n];
        if key in recentKeys {
          dropped := dropped + 1;
        } else {
          RememberKey(key);
          accepted := accepted + [items[n]];
        }
      }
      assert items[..|items|] == items;
      if accepted != [] {
        queue := queue + [Batch(entityType, scope, accepted)];
      }
      stats := Stats(|accepted|, dropped);
    }

    method PopBatch() returns (r: Option<Batch>)
      requires Valid()
      modifies this`queue
      ensures Valid() && r == (if old(queue) == [] then None else Some(old(queue)[0]))
      ensures queue == if old(queue) == [] then [] else old(queue)[1..]
    {
      if queue == [] {
        r := None;
      } else {
        r := Some(queue[0]);
        queue := queue[1..];
      }
    }

    method RequeueFront(batch: Batch)
      requires Valid()
      modifies this`queue
      ensures Valid() && queue == [batch] + old(queue)
    {
      queue := [batch] + queue;
    }

    method RememberKey(key: string)
      requires Valid() && key !in recentKeys
      modifies this`recentKeys, this`recentOrder, this`history
      ensures Valid() && history == old(history) + [key]
    {
      recentKeys := recentKeys + {key};
      recentOrder := recentOrder + [key];
      history := history + [key];
      ghost var grown := recentOrder;
      ghost var evicted := 0;
      while |recentOrder| > limit
        invariant history == old(history) + [key]
        invariant evicted <= |grown| && recentOrder == grown[evicted..]
        invariant evicted > 0 ==> |recentOrder| >= limit
        invariant recentKeys == (set k | k in recentOrder) && NoRepeats(recentOrder)
        decreases |recentOrder|
      {
        var oldest := recentOrder[0];
        FirstOfDistinct(recentOrder);
        recentOrder := recentOrder[1..];
        recentKeys := recentKeys - {oldest};
        evicted := evicted + 1;
      }
      WindowSlides(old(history), key, limit);
    }
  }

  predicate NoRepeats(s: seq<string>) { forall i, j :: 0 <= i < j < |s| ==> s[i] != s[j] }

  lemma FirstOfDistinct(s: seq<string>)
    requires s != [] && NoRepeats(s)
    ensures (set k | k in s[1..]) == (set k | k in s) - {s[0]} && NoRepeats(s[1..])
  {
    forall k | k in s && k != s[0] ensures k in s[1..] {
      var i :| 0 <= i < |s| && s[i] == k;
      assert s[1..][i - 1] == k;
    }
  }

  lemma WindowSlides(history: seq<string>, key: string, limit: nat)
    requires limit > 0
    ensures
      var grown := Window(history, limit) + [key];
      Window(history + [key], limit) == if |grown| > limit then grown[1..] else grown
  {
  }

  // ----- what deduplication promises -----

  /** Accepted keys repeat only after more than `limit` others. */
  predicate Spaced(history: seq<string>, limit: nat) {
    forall i, j :: 0 <= i < j < |history| && history[i] == history[j] ==> j - i > limit
  }

  lemma OutsideWindow(history: seq<string>, key: string, limit: nat)
    requires key !in Window(history, limit)
    ensures forall i :: 0 <= i < |history| && |history| - i <= limit ==> history[i] != key
  {
    var w := Window(history, limit);
    forall i | 0 <= i < |history| && |history| - i <= limit ensures history[i] != key {
      assert w[i - (|history| - |w|)] == history[i];
    }
  }

  lemma {:induction false} SiftKeepsSpacing(history: seq<string>, limit: nat, entityType: string,
    scope: Option<string>, items: seq<Item>)
    requires Spaced(history, limit)
    ensures Spaced(Sift(history, limit, entityType, scope, items).1, limit)
  {
    if items != [] {
      SiftKeepsSpacing(history, limit, entityType, scope, items[..|items| - 1]);
      var before := Sift(history, limit, entityType, scope, items[..|items| - 1]).1;
      var key := DedupeKey(entityType, scope, items[|items| - 1]);
      if key !in Window(before, limit) {
        OutsideWindow(before, key, limit);
      }
    }
  }

  /** Sifting two lists one after the other is sifting them joined: how items are split over calls
      does not matter. */
  lemma {:induction false} SiftJoins(history: seq<string>, limit: nat, entityType: string, scope: Option<string>,
    a: seq<Item>, b: seq<Item>)
    ensures
      var (keptA, mid) := Sift(history, limit, entityType, scope, a);
      var (keptB, after) := Sift(mid, limit, entityType, scope, b);
      Sift(history, limit, entityType, scope, a + b) == (keptA + keptB, after)
  {
    if b == [] {
      assert a + b == a;
      var kept := Sift(history, limit, entityType, scope, a).0;
      assert kept + [] == kept;
    } else {
      var init := b[..|b| - 1];
      SiftJoins(history, limit, entityType, scope, a, init);
      assert (a + b)[..|a + b| - 1] == a + init && (a + b)[|a + b| - 1] == b[|b| - 1];
      var (keptA, mid) := Sift(history, limit, entityType, scope, a);
      var keptB := Sift(mid, limit, entityType, scope, init).0;
      assert keptA + keptB + [b[|b| - 1]] == keptA + (keptB + [b[|b| - 1]]);
    }
  }

  // ----- conservation over runs -----

  /** An accepted item with the batch header it belongs to. */
  datatype Tagged = Tagged(entityType: string, scope: Option<string>, item: Item)

  function Tag(entityType: string, scope: Option<string>, items: seq<Item>): (r: seq<Tagged>)
    ensures |r| == |items|
  {
    seq(|items|, i requires 0 <= i < |items| => Tagged(entityType, scope, items[i]))
  }

  function Flat(batches: seq<Batch>): seq<Tagged> {
    if batches == [] then []
    else Flat(batches[..|batches| - 1]) + (var b := batches[|batches| - 1]; Tag(b.entityType, b.scope, b.items))
  }

  /** What becomes of drained batches applied one after the other until number `k` fails: the applied
      ones, the failed one given back, and those after it, which no one holds any more. */
  datatype Outcome = Outcome(applied: seq<Batch>, back: seq<Batch>, lost: seq<Batch>)

  function ApplyUntil(batches: seq<Batch>, k: nat): Outcome {
    if k >= |batches| then Outcome(batches, [], []) else Outcome(batches[..k], [batches[k]], batches[k + 1..])
  }

  datatype Event =
    | Arrive(entityType: string, scope: Option<string>, items: seq<Item>)
    | Pop
    | Requeue
    | Drain
    | Apply(k: nat)

  /** `taken` are the batches popped and kept, `lost` those dropped after a failure; `accepted` the items
      accepted, in order of arrival. */
  datatype Run = Run(
    pipe: Pipe, taken: seq<Batch>, lost: seq<Batch>, accepted: seq<Tagged>, inputs: nat, dropped: nat)

  function Start(): Run { Run(Pipe([], []), [], [], [], 0, 0) }

  /** A requeue gives back the batch taken last; an apply drains the queue and gives back the batch that
      failed. */
  function Next(r: Run, limit: nat, e: Event): Run {
    match e
    case Arrive(entityType, scope, items) =>
      var kept := Sift(r.pipe.history, limit, entityType, scope, items).0;
      r.(pipe := Enqueued(r.pipe, limit, entityType, scope, items),
         accepted := r.accepted + Tag(entityType, scope, kept), inputs := r.inputs + |items|,
         dropped := if |kept| <= |items| then r.dropped + (|items| - |kept|) else r.dropped)
    case Pop =>
      if r.pipe.queue == [] then r
      else r.(pipe := r.pipe.(queue := r.pipe.queue[1..]), taken := r.taken + [r.pipe.queue[0]])
    case Requeue =>
      if r.taken == [] then r
      else r.(pipe := r.pipe.(queue := [r.taken[|r.taken| - 1]] + r.pipe.queue), taken := r.taken[..|r.taken| - 1])
    case Drain => r.(pipe := r.pipe.(queue := []), taken := r.taken + r.pipe.queue)
    case Apply(k) =>
      var o := ApplyUntil(r.pipe.queue, k);
      r.(pipe := r.pipe.(queue := o.back), taken := r.taken + o.applied, lost := r.lost + o.lost)
  }

  function After(limit: nat, es: seq<Event>): Run {
    if es == [] then Start() else Next(After(limit, es[..|es| - 1]), limit, es[|es| - 1])
  }

  lemma {:induction false} SiftLength(history: seq<string>, limit: nat, entityType: string, scope: Option<string>,
    items: seq<Item>)
    ensures |Sift(history, limit, entityType, scope, items).0| <= |items|
  {
    if items != [] { SiftLength(history, limit, entityType, scope, items[..|items| - 1]); }
  }

  function TagKey(t: Tagged): string { DedupeKey(t.entityType, t.scope, t.item) }

  function TagKeys(ts: seq<Tagged>): (r: seq<string>)
    ensures |r| == |ts| && forall i :: 0 <= i < |r| ==> r[i] == TagKey(ts[i])
  {
    seq(|ts|, i requires 0 <= i < |ts| => TagKey(ts[i]))
  }

  /** The history grows by the keys of the items kept. */
  lemma {:induction false} SiftRecordsKept(history: seq<string>, limit: nat, entityType: string,
    scope: Option<string>, items: seq<Item>)
    ensures
      var (kept, after) := Sift(history, limit, entityType, scope, items);
      after == history + TagKeys(Tag(entityType, scope, kept))
  {
    if items != [] {
      var init, last := items[..|items| - 1], items[|items| - 1];
      SiftRecordsKept(history, limit, entityType, scope, init);
      var kept := Sift(history, limit, entityType, scope, init).0;
      var more := TagKeys(Tag(entityType, scope, kept + [last]));
      assert more == TagKeys(Tag(entityType, scope, kept)) + [DedupeKey(entityType, scope, last)];
    }
  }

  lemma {:induction false} FlatJoins(a: seq<Batch>, b: seq<Batch>)
    ensures Flat(a + b) == Flat(a) + Flat(b)
  {
    if b == [] {
      assert a + b == a;
    } else {
      var init, last := b[..|b| - 1], b[|b| - 1];
      var tail := Tag(last.entityType, last.scope, last.items);
      FlatJoins(a, init);
      assert (a + b)[..|a + b| - 1] == a + init && (a + b)[|a + b| - 1] == last;
      assert Flat(a + b) == Flat(a) + Flat(init) + tail && Flat(b) == Flat(init) + tail;
    }
  }

  /** At any point of any run every item accepted is in a batch taken, queued or lost, once, and nothing
      else is; every input is accepted or counted as dropped; and the keys remembered are those of the
      accepted items in order of arrival, equal ones more than the window apart. */
  ghost predicate Accounted(r: Run, limit: nat) {
    && multiset(Flat(r.taken + r.pipe.queue)) + multiset(Flat(r.lost)) == multiset(r.accepted)
    && |r.accepted| + r.dropped == r.inputs
    && r.pipe.history == TagKeys(r.accepted) && Spaced(r.pipe.history, limit)
    && NoneEmpty(r.taken + r.pipe.queue) && NoneEmpty(r.lost)
  }

  predicate NoneEmpty(batches: seq<Batch>) { forall b :: b in batches ==> b.items != [] }

  lemma {:induction false} AllAccounted(limit: nat, es: seq<Event>)
    ensures Accounted(After(limit, es), limit)
  {
    if es != [] {
      AllAccounted(limit, es[..|es| - 1]);
      StepIsAccounted(After(limit, es[..|es| - 1]), limit, es[|es| - 1]);
    }
  }

  lemma StepIsAccounted(r: Run, limit: nat, e: Event)
    requires Accounted(r, limit)
    ensures Accounted(Next(r, limit, e), limit)
  {
    match e
    case Arrive(entityType, scope, items) => ArriveIsAccounted(r, limit, entityType, scope, items);
    case Pop => MoveOne(r.taken, r.pipe.queue);
    case Requeue => MoveBack(r.taken, r.pipe.queue);
    case Drain => assert r.taken + r.pipe.queue + [] == r.taken + r.pipe.queue;
    case Apply(k) => ApplyIsAccounted(r, limit, k);
  }

  /** The batches taken followed by those queued hold exactly the accepted items in order of arrival. */
  ghost predicate Conserved(r: Run) { Flat(r.taken + r.pipe.queue) == r.accepted }

  /** Whenever a batch failed it was the last one drained. */
  predicate FailsLast(limit: nat, es: seq<Event>) {
    es == [] || (
      var init, last := es[..|es| - 1], es[|es| - 1];
      FailsLast(limit, init) && (last.Apply? ==> last.k + 1 >= |After(limit, init).pipe.queue|))
  }

  /** Nothing is lost, invented, repeated or reordered in a run of arrivals, pops, requeues, drains and
      applies exactly when no batch fails that has others drained after it. */
  lemma {:induction false} Conservation(limit: nat, es: seq<Event>)
    ensures Conserved(After(limit, es)) <==> FailsLast(limit, es)
    ensures After(limit, es).lost == [] <==> FailsLast(limit, es)
  {
    if es != [] {
      var r, e := After(limit, es[..|es| - 1]), es[|es| - 1];
      Conservation(limit, es[..|es| - 1]);
      AllAccounted(limit, es[..|es| - 1]);
      ConservedStep(r, limit, e);
      LosslessStep(r, limit, e);
    }
  }

  lemma LosslessStep(r: Run, limit: nat, e: Event)
    ensures Next(r, limit, e).lost == [] <==> r.lost == [] && (e.Apply? ==> e.k + 1 >= |r.pipe.queue|)
  {
  }

  lemma ConservedStep(r: Run, limit: nat, e: Event)
    requires Accounted(r, limit) && (Conserved(r) <==> r.lost == [])
    ensures Conserved(Next(r, limit, e)) <==> Next(r, limit, e).lost == []
  {
    LosslessStep(r, limit, e);
    StepIsAccounted(r, limit, e);
    if Next(r, limit, e).lost == [] {
      StepConserves(r, limit, e);
    } else {
      LossShows(Next(r, limit, e), limit);
    }
  }

  lemma LossShows(r: Run, limit: nat)
    requires Accounted(r, limit) && r.lost != []
    ensures !Conserved(r)
  {
    var last := r.lost[|r.lost| - 1];
    assert last.items != [] && |Flat(r.lost)| > 0;
    assert |multiset(Flat(r.taken + r.pipe.queue))| + |multiset(Flat(r.lost))| == |multiset(r.accepted)|;
  }

  lemma StepConserves(r: Run, limit: nat, e: Event)
    requires Conserved(r) && Next(r, limit, e).lost == []
    ensures Conserved(Next(r, limit, e))
  {
    match e
    case Arrive(entityType, scope, items) => ArriveConserves(r, limit, entityType, scope, items);
    case Pop => MoveOne(r.taken, r.pipe.queue);
    case Requeue => MoveBack(r.taken, r.pipe.queue);
    case Drain => assert r.taken + r.pipe.queue + [] == r.taken + r.pipe.queue;
    case Apply(k) =>
      ApplySplits(r.taken, r.pipe.queue, k);
      var o := ApplyUntil(r.pipe.queue, k);
      assert (r.lost + o.lost)[|r.lost|..] == o.lost;
      assert r.taken + o.applied + o.back + [] == r.taken + o.applied + o.back;
  }

  /** An item among the last `limit` accepted, lost or not, is refused when it arrives again. */
  lemma RefusedInWindow(limit: nat, es: seq<Event>, i: nat)
    requires i < |After(limit, es).accepted| <= i + limit
    ensures
      var r := After(limit, es);
      var t := r.accepted[i];
      Next(r, limit, Arrive(t.entityType, t.scope, [t.item])) == r.(inputs := r.inputs + 1, dropped := r.dropped + 1)
  {
    AllAccounted(limit, es);
    var r := After(limit, es);
    var t, w := r.accepted[i], Window(r.pipe.history, limit);
    assert w[i - (|r.accepted| - |w|)] == TagKey(t);
    assert [t.item][..0] == [];
    assert Sift(r.pipe.history, limit, t.entityType, t.scope, []) == ([], r.pipe.history);
    assert Sift(r.pipe.history, limit, t.entityType, t.scope, [t.item]) == ([], r.pipe.history);
    assert r.accepted + Tag(t.entityType, t.scope, []) == r.accepted;
  }

  /** An item that arrives alone is accepted, into a batch of its own under the header it came with, exactly
      when no item among the last `limit` accepted has its key. */
  lemma AcceptedExactly(limit: nat, es: seq<Event>, entityType: string, scope: Option<string>, item: Item)
    ensures
      var r := After(limit, es);
      var next := Next(r, limit, Arrive(entityType, scope, [item]));
      var t := Tagged(entityType, scope, item);
      if exists i :: 0 <= i < |r.accepted| <= i + limit && TagKey(r.accepted[i]) == DedupeKey(entityType, scope, item)
      then next == r.(inputs := r.inputs + 1, dropped := r.dropped + 1)
      else
        && next.accepted == r.accepted + [t] && next.pipe.queue == r.pipe.queue + [Batch(entityType, scope, [item])]
        && next.dropped == r.dropped && next.taken == r.taken && next.lost == r.lost
  {
    var r, key := After(limit, es), DedupeKey(entityType, scope, item);
    AllAccounted(limit, es);
    KeyInWindow(r, limit, key);
    SiftOne(r.pipe.history, limit, entityType, scope, item);
    assert Tag(entityType, scope, []) == [] && Tag(entityType, scope, [item]) == [Tagged(entityType, scope, item)];
    assert r.accepted + [] == r.accepted;
  }

  lemma SiftOne(history: seq<string>, limit: nat, entityType: string, scope: Option<string>, item: Item)
    ensures
      var key := DedupeKey(entityType, scope, item);
      Sift(history, limit, entityType, scope, [item]) ==
      if key in Window(history, limit) then ([], history) else ([item], history + [key])
  {
    assert [item][..0] == [] && [] + [item] == [item];
    assert Sift(history, limit, entityType, scope, []) == ([], history);
  }

  lemma KeyInWindow(r: Run, limit: nat, key: string)
    requires r.pipe.history == TagKeys(r.accepted)
    ensures
      key in Window(r.pipe.history, limit) <==>
      exists i :: 0 <= i < |r.accepted| <= i + limit && TagKey(r.accepted[i]) == key
  {
    var history := r.pipe.history;
    InLast(history, limit, key);
    if key in Window(history, limit) {
      var i :| 0 <= i < |history| && |history| <= i + limit && history[i] == key;
      assert TagKey(r.accepted[i]) == key;
    }
  }

  lemma InLast(s: seq<string>, n: nat, x: string)
    ensures x in Last(s, n) <==> exists i :: 0 <= i < |s| && |s| <= i + n && s[i] == x
  {
    var w := Last(s, n);
    if x in w {
      var k :| 0 <= k < |w| && w[k] == x;
      assert s[|s| - |w| + k] == x;
    }
    if exists i :: 0 <= i < |s| && |s| <= i + n && s[i] == x {
      var i :| 0 <= i < |s| && |s| <= i + n && s[i] == x;
      assert w[i - (|s| - |w|)] == x;
    }
  }

  /** Giving back a batch just taken restores the pipeline. */
  lemma RequeueUndoesPop(r: Run, limit: nat)
    ensures r.pipe.queue != [] ==> Next(Next(r, limit, Pop), limit, Requeue) == r
  {
    if r.pipe.queue != [] {
      var first := r.pipe.queue[0];
      assert [first] + r.pipe.queue[1..] == r.pipe.queue;
      assert (r.taken + [first])[..|r.taken|] == r.taken;
    }
  }

  lemma ApplySplits(taken: seq<Batch>, queue: seq<Batch>, k: nat)
    ensures var o := ApplyUntil(queue, k); taken + queue == taken + o.applied + o.back + o.lost
  {
  }

  lemma ApplyIsAccounted(r: Run, limit: nat, k: nat)
    requires Accounted(r, limit)
    ensures Accounted(Next(r, limit, Apply(k)), limit)
  {
    var o := ApplyUntil(r.pipe.queue, k);
    ApplySplits(r.taken, r.pipe.queue, k);
    FlatJoins(r.taken + o.applied + o.back, o.lost);
    FlatJoins(r.lost, o.lost);
  }

  lemma ArriveIsAccounted(r: Run, limit: nat, entityType: string, scope: Option<string>, items: seq<Item>)
    requires Accounted(r, limit)
    ensures Accounted(Next(r, limit, Arrive(entityType, scope, items)), limit)
  {
    SiftLength(r.pipe.history, limit, entityType, scope, items);
    SiftKeepsSpacing(r.pipe.history, limit, entityType, scope, items);
    SiftRecordsKept(r.pipe.history, limit, entityType, scope, items);
    var kept := Sift(r.pipe.history, limit, entityType, scope, items).0;
    var tagged := Tag(entityType, scope, kept);
    assert TagKeys(r.accepted + tagged) == TagKeys(r.accepted) + TagKeys(tagged);
    if kept == [] {
      assert r.accepted + tagged == r.accepted;
    } else {
      AppendFlat(r.taken, r.pipe.queue, Batch(entityType, scope, kept));
    }
  }

  lemma ArriveConserves(r: Run, limit: nat, entityType: string, scope: Option<string>, items: seq<Item>)
    requires Conserved(r)
    ensures Conserved(Next(r, limit, Arrive(entityType, scope, items)))
  {
    var kept := Sift(r.pipe.history, limit, entityType, scope, items).0;
    if kept == [] {
      assert r.accepted + Tag(entityType, scope, kept) == r.accepted;
    } else {
      AppendFlat(r.taken, r.pipe.queue, Batch(entityType, scope, kept));
    }
  }

  lemma AppendFlat(taken: seq<Batch>, queue: seq<Batch>, b: Batch)
    ensures Flat(taken + (queue + [b])) == Flat(taken + queue) + Tag(b.entityType, b.scope, b.items)
  {
    var all := taken + (queue + [b]);
    assert all[..|all| - 1] == taken + queue && all[|all| - 1] == b;
  }

  lemma MoveOne(taken: seq<Batch>, queue: seq<Batch>)
    ensures queue != [] ==> taken + [queue[0]] + queue[1..] == taken + queue
  {
  }

  lemma MoveBack(taken: seq<Batch>, queue: seq<Batch>)
    ensures taken != [] ==> taken[..|taken| - 1] + ([taken[|taken| - 1]] + queue) == taken + queue
  {
  }
}

module SyncCommitApplier {
  import opened Tables
  import opened Pipeline

  /** Takes every queued batch in order and leaves the queue empty. */
  method DrainBatches(pipeline: ReceivePipeline) returns (batches: seq<Batch>)
    requires pipeline.Valid()
    modifies pipeline`queue
    ensures pipeline.Valid() && batches == old(pipeline.queue) && pipeline.queue == []
  {
    batches := [];
    var next := pipeline.PopBatch();
    while next.Some?
      invariant pipeline.Valid()
      invariant next.None? ==> pipeline.queue == [] && batches == old(pipeline.queue)
      invariant next.Some? ==> batches + [next.value] + pipeline.queue == old(pipeline.queue)
      decreases |pipeline.queue|, next.Some?
    {
      batches := batches + [next.value];
      next := pipeline.PopBatch();
    }
  }

  method RequeueFront(pipeline: ReceivePipeline, batch: Batch)
    requires pipeline.Valid()
    modifies pipeline`queue
    ensures pipeline.Valid() && pipeline.queue == [batch] + old(pipeline.queue)
  {
    pipeline.RequeueFront(batch);
  }

  /** Drain, and apply the batches in order until one fails: that one is requeued and those after it are
      dropped with the sequence that held them. `k` is the number of the failed batch. */
  method ApplyDrained(pipeline: ReceivePipeline, fails: nat -> bool) returns (applied: seq<Batch>, k: nat)
    requires pipeline.Valid()
    modifies pipeline`queue
    ensures pipeline.Valid()
    ensures applied == ApplyUntil(old(pipeline.queue), k).applied
    ensures pipeline.queue == ApplyUntil(old(pipeline.queue), k).back
    ensures (forall n :: 0 <= n < |applied| ==> !fails(n)) && (k < |old(pipeline.queue)| ==> fails(k))
  {
    var batches := DrainBatches(pipeline);
    applied, k := [], 0;
    while k < |batches|
      invariant k <= |batches| && applied == batches[..k] && pipeline.Valid() && pipeline.queue == []
      invariant forall n :: 0 <= n < k ==> !fails(n)
    {
      if fails(k) {
        RequeueFront(pipeline, batches[k]);
        return;
      }
      applied := applied + [batches[k]];
      k := k + 1;
    }
  }
}
