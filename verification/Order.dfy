/** Sorting keys of up to four integers, which is what every ORDER BY here amounts to. */
module Order {

  datatype Key = Key(k1: int, k2: int, k3: int, k4: int)

  /** The nested comparisons of a row-value test written out column by column. */
  predicate Lt(k: Key, a: Key) {
    k.k1 < a.k1 || (k.k1 == a.k1 && (k.k2 < a.k2 || (k.k2 == a.k2 && (k.k3 < a.k3 || (k.k3 == a.k3 && k.k4 < a.k4)))))
  }

  predicate Gt(k: Key, a: Key) {
    k.k1 > a.k1 || (k.k1 == a.k1 && (k.k2 > a.k2 || (k.k2 == a.k2 && (k.k3 > a.k3 || (k.k3 == a.k3 && k.k4 > a.k4)))))
  }

  function Columns(k: Key): seq<int> { [k.k1, k.k2, k.k3, k.k4] }

  /** `s` comes before `t` when it is smaller at the first column where they differ. */
  ghost predicate FirstDifferenceLess(s: seq<int>, t: seq<int>)
    requires |s| == |t|
  {
    exists n :: 0 <= n < |s| && s[..n] == t[..n] && s[n] < t[n]
  }

  lemma NestedTestsAreLexicographic(k: Key, a: Key)
    ensures Lt(k, a) <==> FirstDifferenceLess(Columns(k), Columns(a))
    ensures Gt(k, a) <==> FirstDifferenceLess(Columns(a), Columns(k))
  {
    NestedLt(k, a);
    NestedLt(a, k);
  }

  lemma NestedLt(k: Key, a: Key)
    ensures Lt(k, a) <==> FirstDifferenceLess(Columns(k), Columns(a))
  {
    var s, t := Columns(k), Columns(a);
    if Lt(k, a) {
      var n := if k.k1 != a.k1 then 0 else if k.k2 != a.k2 then 1 else if k.k3 != a.k3 then 2 else 3;
      assert s[..n] == t[..n] && s[n] < t[n];
    }
    if FirstDifferenceLess(s, t) {
      var n :| 0 <= n < |s| && s[..n] == t[..n] && s[n] < t[n];
      assert forall i :: 0 <= i < n ==> s[..n][i] == s[i] && t[..n][i] == t[i];
      assert s[0] == k.k1 && s[1] == k.k2 && s[2] == k.k3 && t[0] == a.k1 && t[1] == a.k2 && t[2] == a.k3;
    }
  }

  // ----- sorting a set -----

  predicate Ascending(s: seq<Key>) {
    forall i, j :: 0 <= i < j < |s| ==> Lt(s[i], s[j])
  }

  predicate IsFirst(x: Key, s: set<Key>) { x in s && forall y :: y in s && y != x ==> Lt(x, y) }

  lemma {:induction false} FirstExists(s: set<Key>)
    requires s != {}
    ensures exists x :: IsFirst(x, s)
  {
    var x :| x in s;
    if s == {x} {
      assert IsFirst(x, s);
    } else {
      FirstExists(s - {x});
      var y :| IsFirst(y, s - {x});
      assert s == {x} + (s - {x});
      assert IsFirst(if Lt(x, y) then x else y, s);
    }
  }

  function Sorted(s: set<Key>): (r: seq<Key>)
    ensures Ascending(r)
    ensures forall k :: k in r <==> k in s
    ensures |r| == |s|
  {
    if s == {} then []
    else
      FirstExists(s);
      var x :| IsFirst(x, s);
      [x] + Sorted(s - {x})
  }

  /** Two ascending sequences of the same keys are the same sequence. */
  lemma {:induction false} AscendingIsUnique(s: seq<Key>, t: seq<Key>)
    requires Ascending(s) && Ascending(t) && forall k :: k in s <==> k in t
    ensures s == t
  {
    if s != [] { assert s[0] in s; }
    if t != [] { assert t[0] in t; }
    if s != [] && t != [] {
      assert s[0] == t[0];
      forall k ensures k in s[1..] <==> k in t[1..] {
        assert k in s <==> k == s[0] || k in s[1..];
        assert k in t <==> k == t[0] || k in t[1..];
        assert s[0] !in s[1..] && t[0] !in t[1..];
      }
      AscendingIsUnique(s[1..], t[1..]);
    }
  }

  lemma SortedIs(s: set<Key>, r: seq<Key>)
    requires Ascending(r) && forall k :: k in r <==> k in s
    ensures Sorted(s) == r
  {
    AscendingIsUnique(Sorted(s), r);
  }

  // ----- LIMIT, OFFSET and DESC -----

  function Take<T>(s: seq<T>, n: nat): seq<T> { if n <= |s| then s[..n] else s }

  function Page<T>(s: seq<T>, limit: nat, offset: nat): seq<T> {
    if offset <= |s| then Take(s[offset..], limit) else []
  }

  function Reverse<T>(s: seq<T>): (r: seq<T>)
    ensures |r| == |s| && forall i :: 0 <= i < |s| ==> r[i] == s[|s| - 1 - i]
  {
    seq(|s|, i requires 0 <= i < |s| => s[|s| - 1 - i])
  }

  lemma AscendingConcat(s: seq<Key>, t: seq<Key>)
    requires Ascending(s) && Ascending(t)
    requires forall i, j :: 0 <= i < |s| && 0 <= j < |t| ==> Lt(s[i], t[j])
    ensures Ascending(s + t)
  {
  }

  function Below(s: set<Key>, a: Key): set<Key> { set k | k in s && Lt(k, a) }

  function Above(s: set<Key>, a: Key): set<Key> { set k | k in s && Gt(k, a) }

  /** An anchor splits a sorted set into what is before it, itself, and what is after it. */
  lemma SortedSplits(s: set<Key>, a: Key)
    requires a in s
    ensures Sorted(s) == Sorted(Below(s, a)) + [a] + Sorted(Above(s, a))
  {
    var lower, upper := Sorted(Below(s, a)), Sorted(Above(s, a));
    forall i | 0 <= i < |lower| ensures Lt(lower[i], a) { assert lower[i] in lower; }
    forall j | 0 <= j < |upper| ensures Lt(a, upper[j]) { assert upper[j] in upper; }
    AscendingConcat(lower, [a]);
    AscendingConcat(lower + [a], upper);
    forall k ensures k in lower + [a] + upper <==> k in s {
      assert k in lower + [a] + upper <==> k in lower || k == a || k in upper;
    }
    AscendingIsUnique(Sorted(s), lower + [a] + upper);
  }

  function Elements(s: seq<Key>): set<Key> { set k | k in s }

  lemma ReverseElements(s: seq<Key>)
    ensures Elements(Reverse(s)) == Elements(s)
  {
    forall k | k in s ensures k in Reverse(s) {
      var i :| 0 <= i < |s| && s[i] == k;
      assert Reverse(s)[|s| - 1 - i] == k;
    }
  }

  /** The last `n` keys. */
  function Last<T>(s: seq<T>, n: nat): seq<T> { if n <= |s| then s[|s| - n..] else s }

  /** Taking `n` keys in descending order and sorting them again gives the end of the sorted
      sequence. */
  lemma LastKeysSorted(s: set<Key>, n: nat)
    ensures Sorted(Elements(Take(Reverse(Sorted(s)), n))) == Last(Sorted(s), n)
  {
    var r := Sorted(s);
    assert Take(Reverse(r), n) == Reverse(Last(r, n));
    ReverseElements(Last(r, n));
    AscendingIsUnique(Sorted(Elements(Last(r, n))), Last(r, n));
  }
}
