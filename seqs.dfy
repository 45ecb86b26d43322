/**
 * Sequence operations the application uses through JavaScript's array
 * methods: `filter`, `findIndex`/`find` and a stable `sort` with a numeric
 * comparator. Each is defined once here and proved once; the stores and the
 * views instantiate them with their own predicates and keys.
 */
module Seqs {

  /** `s.filter(p)`: the elements satisfying `p`, in their original order. */
  function Filter<T>(s: seq<T>, p: T -> bool): (r: seq<T>)
    ensures |r| <= |s|
    ensures forall i :: 0 <= i < |r| ==> r[i] in s && p(r[i])
    ensures forall i :: 0 <= i < |s| && p(s[i]) ==> s[i] in r
  {
    if s == [] then []
    else (if p(s[0]) then [s[0]] else []) + Filter(s[1..], p)
  }

  /** Filtering distributes over concatenation: it keeps relative order. */
  lemma {:induction false} FilterConcat<T>(a: seq<T>, b: seq<T>, p: T -> bool)
    ensures Filter(a + b, p) == Filter(a, p) + Filter(b, p)
  {
    if a == [] {
      assert a + b == b;
    } else {
      assert (a + b)[0] == a[0];
      assert (a + b)[1..] == a[1..] + b;
      FilterConcat(a[1..], b, p);
    }
  }

  /** Filtering a one-element extension adds that element exactly when it is kept. */
  lemma {:induction false} FilterSnoc<T>(a: seq<T>, x: T, p: T -> bool)
    ensures Filter(a + [x], p) == Filter(a, p) + (if p(x) then [x] else [])
  {
    FilterConcat(a, [x], p);
    assert Filter([x], p) == (if p(x) then [x] else []) + Filter([x][1..], p);
  }

  /** The complement of a predicate. */
  function Not<T>(p: T -> bool): T -> bool
  {
    (x: T) => !p(x)
  }

  /** Two filters applied one after the other give the same result in either order. */
  lemma {:induction false} FilterCommute<T>(s: seq<T>, p: T -> bool, q: T -> bool)
    ensures Filter(Filter(s, p), q) == Filter(Filter(s, q), p)
  {
    if s != [] {
      var hp := if p(s[0]) then [s[0]] else [];
      var hq := if q(s[0]) then [s[0]] else [];
      FilterConcat(hp, Filter(s[1..], p), q);
      FilterConcat(hq, Filter(s[1..], q), p);
      assert Filter(hp, q) == Filter(hq, p) by {
        assert Filter(hp, q) == (if p(s[0]) && q(s[0]) then [s[0]] else []);
        assert Filter(hq, p) == (if p(s[0]) && q(s[0]) then [s[0]] else []);
      }
      FilterCommute(s[1..], p, q);
    }
  }

  /** A filter that rejects nothing returns its input unchanged. */
  lemma {:induction false} FilterKeepsAll<T>(s: seq<T>, p: T -> bool)
    requires forall i :: 0 <= i < |s| ==> p(s[i])
    ensures Filter(s, p) == s
  {
    if s != [] {
      FilterKeepsAll(s[1..], p);
    }
  }

  /** A filter that keeps nothing returns the empty sequence. */
  lemma {:induction false} FilterKeepsNone<T>(s: seq<T>, p: T -> bool)
    requires forall i :: 0 <= i < |s| ==> !p(s[i])
    ensures Filter(s, p) == []
  {
    if s != [] {
      FilterKeepsNone(s[1..], p);
    }
  }

  /** Removing element `i` where the predicate fails does not change the filter. */
  lemma {:induction false} FilterSkip<T>(s: seq<T>, i: nat, p: T -> bool)
    requires i < |s| && !p(s[i])
    ensures Filter(s[..i] + s[i + 1..], p) == Filter(s, p)
  {
    var rest := s[..i] + s[i + 1..];
    if i == 0 {
      assert rest == s[1..];
    } else {
      FilterSkip(s[1..], i - 1, p);
      assert rest[0] == s[0];
      assert rest[1..] == s[1..][..i - 1] + s[1..][i..];
    }
  }

  /** `s.findIndex(p)`: the first position satisfying `p`, or -1. */
  function IndexWhere<T>(s: seq<T>, p: T -> bool): (i: int)
    ensures -1 <= i < |s|
    ensures i == -1 <==> forall k :: 0 <= k < |s| ==> !p(s[k])
    ensures 0 <= i ==> p(s[i]) && forall k :: 0 <= k < i ==> !p(s[k])
  {
    if s == [] then -1
    else if p(s[0]) then 0
    else
      var j := IndexWhere(s[1..], p);
      if j == -1 then -1 else j + 1
  }

  /** The scan `findIndex` performs, element by element from the front. */
  method FindIndex<T>(s: seq<T>, p: T -> bool) returns (i: int)
    ensures i == IndexWhere(s, p)
  {
    var k := 0;
    while k < |s|
      invariant 0 <= k <= |s|
      invariant forall j :: 0 <= j < k ==> !p(s[j])
    {
      if p(s[k]) {
        return k;
      }
      k := k + 1;
    }
    return -1;
  }

  /** Two sequences with the same multiset hold the same elements. */
  lemma SameElements<T>(a: seq<T>, b: seq<T>)
    requires multiset(a) == multiset(b)
    ensures forall i :: 0 <= i < |a| ==> a[i] in b
    ensures forall i :: 0 <= i < |b| ==> b[i] in a
  {
    forall i | 0 <= i < |a|
      ensures a[i] in b
    {
      assert a[i] in multiset(a);
    }
    forall i | 0 <= i < |b|
      ensures b[i] in a
    {
      assert b[i] in multiset(b);
    }
  }

  /** Non-increasing in `key`: what a `(a, b) => key(b) - key(a)` comparator produces. */
  ghost predicate SortedDesc<T>(s: seq<T>, key: T -> int)
  {
    forall i, j :: 0 <= i < j < |s| ==> key(s[i]) >= key(s[j])
  }

  /** Places `x` before the first element whose key is not greater than its own. */
  function InsertDesc<T>(x: T, s: seq<T>, key: T -> int): (r: seq<T>)
    ensures multiset(r) == multiset(s) + multiset{x}
    ensures |r| == |s| + 1
  {
    if s == [] then [x]
    else if key(s[0]) > key(x) then
      assert s == [s[0]] + s[1..];
      [s[0]] + InsertDesc(x, s[1..], key)
    else
      [x] + s
  }

  /** Inserting an element under a bound keeps every key under that bound. */
  lemma {:induction false} InsertDescBounded<T>(x: T, s: seq<T>, key: T -> int, bound: int)
    requires key(x) <= bound
    requires forall k :: 0 <= k < |s| ==> key(s[k]) <= bound
    ensures forall k :: 0 <= k < |InsertDesc(x, s, key)| ==> key(InsertDesc(x, s, key)[k]) <= bound
  {
    if s != [] && key(s[0]) > key(x) {
      InsertDescBounded(x, s[1..], key, bound);
    }
  }

  /** Inserting into a non-increasing sequence keeps it non-increasing. */
  lemma {:induction false} InsertDescSorted<T>(x: T, s: seq<T>, key: T -> int)
    requires SortedDesc(s, key)
    ensures SortedDesc(InsertDesc(x, s, key), key)
    decreases |s|, 1
  {
    if s == [] {
    } else if key(s[0]) > key(x) {
      InsertBehindHead(x, s, key);
    } else {
      var r := [x] + s;
      assert r == InsertDesc(x, s, key);
      forall i, j | 0 <= i < j < |r|
        ensures key(r[i]) >= key(r[j])
      {
        assert r[j] == s[j - 1];
        if i == 0 {
          assert key(s[0]) >= key(s[j - 1]);
        } else {
          assert r[i] == s[i - 1];
        }
      }
    }
  }

  /** The case of `InsertDescSorted` where `x` goes behind the first element. */
  lemma {:induction false} InsertBehindHead<T>(x: T, s: seq<T>, key: T -> int)
    requires SortedDesc(s, key)
    requires s != [] && key(s[0]) > key(x)
    ensures SortedDesc(InsertDesc(x, s, key), key)
    decreases |s|, 0
  {
    var rest := InsertDesc(x, s[1..], key);
    assert SortedDesc(s[1..], key) by {
      forall i, j | 0 <= i < j < |s[1..]|
        ensures key(s[1..][i]) >= key(s[1..][j])
      {
        assert s[1..][i] == s[i + 1] && s[1..][j] == s[j + 1];
      }
    }
    InsertDescSorted(x, s[1..], key);
    InsertDescBounded(x, s[1..], key, key(s[0]));
    var r := [s[0]] + rest;
    assert r == InsertDesc(x, s, key);
    forall i, j | 0 <= i < j < |r|
      ensures key(r[i]) >= key(r[j])
    {
      assert r[j] == rest[j - 1];
      if i != 0 {
        assert r[i] == rest[i - 1];
      }
    }
  }

  /**
   * `s.sort((a, b) => key(b) - key(a))`: a stable sort into non-increasing key
   * order. Each element is inserted in front of the later ones with an equal key.
   */
  function SortDesc<T>(s: seq<T>, key: T -> int): (r: seq<T>)
    ensures SortedDesc(r, key)
    ensures multiset(r) == multiset(s)
    ensures |r| == |s|
  {
    if s == [] then []
    else
      assert s == [s[0]] + s[1..];
      var sortedRest := SortDesc(s[1..], key);
      InsertDescSorted(s[0], sortedRest, key);
      InsertDesc(s[0], sortedRest, key)
  }

  /** The elements whose key is `v`. */
  function KeyIs<T>(key: T -> int, v: int): T -> bool
  {
    (x: T) => key(x) == v
  }

  /** One step of `filter`: the first element, if kept, then the rest filtered. */
  lemma FilterHead<T>(s: seq<T>, p: T -> bool)
    requires s != []
    ensures Filter(s, p) == (if p(s[0]) then [s[0]] else []) + Filter(s[1..], p)
  {
  }

  /**
   * Insertion passes only elements with a larger key, so the inserted element
   * lands ahead of every element sharing its key and leaves their order alone.
   */
  lemma {:induction false} InsertDescStable<T>(x: T, s: seq<T>, key: T -> int, v: int)
    ensures Filter(InsertDesc(x, s, key), KeyIs(key, v)) == (if key(x) == v then [x] else []) + Filter(s, KeyIs(key, v))
  {
    var ins := InsertDesc(x, s, key);
    if s == [] {
      assert ins == [x] && ins[1..] == [];
      FilterHead(ins, KeyIs(key, v));
    } else if key(s[0]) > key(x) {
      InsertDescStable(x, s[1..], key, v);
      PassLargerHead(x, s, key, v);
    } else {
      assert ins == [x] + s && ins[1..] == s;
      FilterHead(ins, KeyIs(key, v));
    }
  }

  /** The step of `InsertDescStable` where `x` passes a head with a larger key. */
  lemma PassLargerHead<T>(x: T, s: seq<T>, key: T -> int, v: int)
    requires s != [] && key(s[0]) > key(x)
    requires Filter(InsertDesc(x, s[1..], key), KeyIs(key, v)) == (if key(x) == v then [x] else []) + Filter(s[1..], KeyIs(key, v))
    ensures Filter(InsertDesc(x, s, key), KeyIs(key, v)) == (if key(x) == v then [x] else []) + Filter(s, KeyIs(key, v))
  {
    var p := KeyIs(key, v);
    var ins := InsertDesc(x, s, key);
    var rest := InsertDesc(x, s[1..], key);
    assert ins == [s[0]] + rest;
    assert ins[0] == s[0] && ins[1..] == rest;
    FilterHead(ins, p);
    FilterHead(s, p);
    // The head is kept only when its key is `v`, and then `x`'s key is not.
    ShiftPast(Filter(ins, p), Filter(rest, p), Filter(s, p), Filter(s[1..], p),
              if p(s[0]) then [s[0]] else [], if key(x) == v then [x] else []);
  }

  /** Moving one of two parts, at least one of them empty, past the other. */
  lemma ShiftPast<T>(a: seq<T>, r: seq<T>, s: seq<T>, s1: seq<T>, head: seq<T>, mine: seq<T>)
    requires a == head + r && r == mine + s1 && s == head + s1
    requires head == [] || mine == []
    ensures a == mine + s
  {
    if head == [] {
      assert a == r && s == s1;
    } else {
      assert r == s1;
    }
  }

  /** `sort` is stable: the elements that share a key keep their original order. */
  lemma {:induction false} SortDescStable<T>(s: seq<T>, key: T -> int, v: int)
    ensures Filter(SortDesc(s, key), KeyIs(key, v)) == Filter(s, KeyIs(key, v))
  {
    if s != [] {
      var p := KeyIs(key, v);
      SortDescStable(s[1..], key, v);
      InsertDescStable(s[0], SortDesc(s[1..], key), key, v);
      FilterHead(s, p);
    }
  }
}
