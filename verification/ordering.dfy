/** The one ordering used by every ranking in the system: a stable sort by a
    score, highest first. Python's `sorted(..., reverse=True)` and
    JavaScript's `Array.prototype.sort` are both stable, so equal scores keep
    their input order. A score may be absent (`Bottom`), which sorts after
    every present score, as `current ?? -Infinity` does in the ratings server. */
module Ordering {

  datatype Key = Bottom | Val(n: int)

  /** `a` does not rank above `b`. */
  predicate KeyLe(a: Key, b: Key) {
    match (a, b)
    case (Bottom, _) => true
    case (Val(_), Bottom) => false
    case (Val(x), Val(y)) => x <= y
  }

  /** Highest key first. */
  ghost predicate SortedDesc<T>(s: seq<T>, key: T -> Key) {
    forall i, j :: 0 <= i < j < |s| ==> KeyLe(key(s[j]), key(s[i]))
  }

  /** The elements of `s` whose key is `k`, in their order in `s`. */
  function WithKey<T>(s: seq<T>, key: T -> Key, k: Key): (r: seq<T>)
    ensures |r| <= |s|
  {
    if s == [] then []
    else (if key(s[0]) == k then [s[0]] else []) + WithKey(s[1..], key, k)
  }

  /** `out` is what a stable descending sort of `input` must produce: a
      permutation, ordered by key, in which elements with equal keys keep
      their input order. */
  ghost predicate IsStableSortOf<T>(out: seq<T>, input: seq<T>, key: T -> Key) {
    && multiset(out) == multiset(input)
    && SortedDesc(out, key)
    && forall k :: WithKey(out, key, k) == WithKey(input, key, k)
  }

  /** Places `x` before the first element that does not rank above it. */
  function Insert<T>(x: T, s: seq<T>, key: T -> Key): (r: seq<T>)
    ensures multiset(r) == multiset(s) + multiset{x}
    ensures |r| == |s| + 1
  {
    if s == [] then [x]
    else if KeyLe(key(s[0]), key(x)) then [x] + s
    else
      assert s == [s[0]] + s[1..];
      [s[0]] + Insert(x, s[1..], key)
  }

  lemma {:induction false} InsertSorted<T>(x: T, s: seq<T>, key: T -> Key)
    requires SortedDesc(s, key)
    ensures SortedDesc(Insert(x, s, key), key)
    decreases |s|
  {
    if s != [] && !KeyLe(key(s[0]), key(x)) {
      var tail := Insert(x, s[1..], key);
      InsertSorted(x, s[1..], key);
      assert Insert(x, s, key) == [s[0]] + tail;
      forall j | 0 <= j < |tail|
        ensures KeyLe(key(tail[j]), key(s[0]))
      {
        assert tail[j] in multiset(tail);
        if tail[j] != x {
          assert tail[j] in multiset(s[1..]);
          var m :| 0 <= m < |s[1..]| && s[1..][m] == tail[j];
          assert s[m + 1] == tail[j];
        }
      }
    }
  }

  /** Insertion sort, highest key first, stable. */
  function SortDesc<T>(s: seq<T>, key: T -> Key): (r: seq<T>)
    ensures multiset(r) == multiset(s)
    ensures |r| == |s|
    ensures SortedDesc(r, key)
  {
    if s == [] then []
    else
      assert s == [s[0]] + s[1..];
      InsertSorted(s[0], SortDesc(s[1..], key), key);
      Insert(s[0], SortDesc(s[1..], key), key)
  }

  lemma {:induction false} WithKeyInsert<T>(x: T, s: seq<T>, key: T -> Key, k: Key)
    ensures WithKey(Insert(x, s, key), key, k)
         == (if key(x) == k then [x] else []) + WithKey(s, key, k)
    decreases |s|
  {
    if s == [] {
    } else if KeyLe(key(s[0]), key(x)) {
      var r := [x] + s;
      assert r[0] == x && r[1..] == s;
    } else {
      WithKeyInsert(x, s[1..], key, k);
      WithKeyInsertBehind(x, s, key, k);
    }
  }

  lemma WithKeyInsertBehind<T>(x: T, s: seq<T>, key: T -> Key, k: Key)
    requires s != [] && !KeyLe(key(s[0]), key(x))
    requires WithKey(Insert(x, s[1..], key), key, k)
          == (if key(x) == k then [x] else []) + WithKey(s[1..], key, k)
    ensures WithKey(Insert(x, s, key), key, k)
         == (if key(x) == k then [x] else []) + WithKey(s, key, k)
  {
    var tail := Insert(x, s[1..], key);
    var r := [s[0]] + tail;
    assert Insert(x, s, key) == r;
    assert r[0] == s[0] && r[1..] == tail;
    var h0 := if key(s[0]) == k then [s[0]] else [];
    assert WithKey(r, key, k) == h0 + WithKey(tail, key, k);
    assert WithKey(s, key, k) == h0 + WithKey(s[1..], key, k);
    if key(x) == k {
      assert key(s[0]) != k;
      assert WithKey(r, key, k) == [x] + WithKey(s[1..], key, k);
      assert WithKey(s, key, k) == WithKey(s[1..], key, k);
    } else {
      assert WithKey(tail, key, k) == WithKey(s[1..], key, k);
    }
  }

  /** The insertion sort meets the stable-sort specification. */
  lemma {:induction false} SortDescIsStable<T>(s: seq<T>, key: T -> Key)
    ensures IsStableSortOf(SortDesc(s, key), s, key)
    decreases |s|
  {
    if s != [] {
      SortDescIsStable(s[1..], key);
      forall k
        ensures WithKey(SortDesc(s, key), key, k) == WithKey(s, key, k)
      {
        WithKeyInsert(s[0], SortDesc(s[1..], key), key, k);
      }
    }
  }

  /** Sorting an already sorted sequence changes nothing: the front end's
      sort of a snapshot the back end saved sorted keeps the saved order. */
  lemma {:induction false} SortDescOfSorted<T>(s: seq<T>, key: T -> Key)
    requires SortedDesc(s, key)
    ensures SortDesc(s, key) == s
    decreases |s|
  {
    if s != [] {
      assert SortedDesc(s[1..], key);
      SortDescOfSorted(s[1..], key);
      if |s| > 1 {
        assert KeyLe(key(s[1]), key(s[0]));
      }
      assert [s[0]] + s[1..] == s;
    }
  }

  /** `f` applied to every element, in order. */
  function Map<A, B>(f: A -> B, s: seq<A>): (r: seq<B>)
    ensures |r| == |s|
    ensures forall i :: 0 <= i < |s| ==> r[i] == f(s[i])
  {
    if s == [] then [] else [f(s[0])] + Map(f, s[1..])
  }

  lemma {:induction false} MapInsert<A, B>(f: A -> B, x: A, s: seq<A>, key: A -> Key, key': B -> Key)
    requires forall a :: key'(f(a)) == key(a)
    ensures Map(f, Insert(x, s, key)) == Insert(f(x), Map(f, s), key')
    decreases |s|
  {
    if s != [] && !KeyLe(key(s[0]), key(x)) {
      MapInsert(f, x, s[1..], key, key');
      assert Map(f, s)[1..] == Map(f, s[1..]);
    }
  }

  /** Rewriting fields the key does not look at commutes with the sort. */
  lemma {:induction false} MapSortDesc<A, B>(f: A -> B, s: seq<A>, key: A -> Key, key': B -> Key)
    requires forall a :: key'(f(a)) == key(a)
    ensures Map(f, SortDesc(s, key)) == SortDesc(Map(f, s), key')
    decreases |s|
  {
    if s != [] {
      MapSortDesc(f, s[1..], key, key');
      MapInsert(f, s[0], SortDesc(s[1..], key), key, key');
      assert Map(f, s)[1..] == Map(f, s[1..]);
    }
  }

  lemma {:induction false} MapInsertMultiset<A, B>(f: A -> B, x: A, s: seq<A>, key: A -> Key)
    ensures multiset(Map(f, Insert(x, s, key))) == multiset(Map(f, s)) + multiset{f(x)}
    decreases |s|
  {
    if s != [] && !KeyLe(key(s[0]), key(x)) {
      MapInsertMultiset(f, x, s[1..], key);
      assert Map(f, s) == [f(s[0])] + Map(f, s[1..]);
      assert Map(f, Insert(x, s, key)) == [f(s[0])] + Map(f, Insert(x, s[1..], key));
    } else if s != [] {
      assert Map(f, Insert(x, s, key)) == [f(x)] + Map(f, s);
    }
  }

  /** Any projection of the records (their previous ranks, say) is carried
      through the sort unchanged as a multiset. */
  lemma {:induction false} MapSortDescMultiset<A, B>(f: A -> B, s: seq<A>, key: A -> Key)
    ensures multiset(Map(f, SortDesc(s, key))) == multiset(Map(f, s))
    decreases |s|
  {
    if s != [] {
      MapSortDescMultiset(f, s[1..], key);
      MapInsertMultiset(f, s[0], SortDesc(s[1..], key), key);
      assert Map(f, s) == [f(s[0])] + Map(f, s[1..]);
    }
  }

  /** Two sequences with the same images under `f`, counted with
      multiplicity, share every image. */
  lemma MapMultisetMember<A, B>(f: A -> B, a: seq<A>, b: seq<A>, x: A)
    requires multiset(Map(f, a)) == multiset(Map(f, b))
    requires x in a
    ensures exists y :: y in b && f(y) == f(x)
  {
    var i :| 0 <= i < |a| && a[i] == x;
    assert Map(f, a)[i] == f(x);
    assert f(x) in multiset(Map(f, b));
    var j :| 0 <= j < |b| && Map(f, b)[j] == f(x);
    assert b[j] in b;
  }

  /** `sub` keeps some elements of `s`, in their order in `s`. */
  predicate IsSubsequence<T(==)>(sub: seq<T>, s: seq<T>)
    decreases |s|
  {
    if sub == [] then true
    else if s == [] then false
    else if sub[0] == s[0] then IsSubsequence(sub[1..], s[1..])
    else IsSubsequence(sub, s[1..])
  }

  lemma AppendSplitLast<T>(a: seq<T>, s: seq<T>)
    requires |s| > 0
    ensures a + s[..|s| - 1] + [s[|s| - 1]] == a + s
  {
    assert s == s[..|s| - 1] + [s[|s| - 1]];
  }

  /** The last `n` elements (`s[-n:]`), or all of `s` when it is shorter. */
  function LastN<T>(s: seq<T>, n: nat): (r: seq<T>)
    ensures |r| == if |s| < n then |s| else n
    ensures r == s[|s| - |r|..]
  {
    if |s| > n then s[|s| - n..] else s
  }

  /** Trimming before appending does not change what the window keeps. */
  lemma LastNAppend<T>(s: seq<T>, x: T, n: nat)
    requires n > 0
    ensures LastN(LastN(s, n) + [x], n) == LastN(s + [x], n)
  {
    var a := LastN(LastN(s, n) + [x], n);
    var b := LastN(s + [x], n);
    assert |a| == |b|;
    forall i | 0 <= i < |a|
      ensures a[i] == b[i]
    {
      if i == |a| - 1 {
      } else {
        assert a[i] == LastN(s, n)[|LastN(s, n)| + 1 - |a| + i];
      }
    }
  }

  /** A window no wider than the appended part sees only that part. */
  lemma LastNOfLongTail<T>(s: seq<T>, tail: seq<T>, n: nat)
    requires |tail| >= n
    ensures LastN(s + tail, n) == tail[|tail| - n..]
  {
    var r := LastN(s + tail, n);
    assert |r| == n;
    forall i | 0 <= i < n
      ensures r[i] == tail[|tail| - n + i]
    {
      assert r[i] == (s + tail)[|s| + |tail| - n + i];
    }
  }

  /** The elements of `s` that `keep` accepts, in order (a list
      comprehension with a condition). */
  function Filter<T>(s: seq<T>, keep: T -> bool): seq<T> {
    if s == [] then []
    else if keep(s[0]) then [s[0]] + Filter(s[1..], keep)
    else Filter(s[1..], keep)
  }

  /** The positions of `s` that `keep` rejects. */
  ghost function Dropped<T>(s: seq<T>, keep: T -> bool): set<int> {
    set i | 0 <= i < |s| && !keep(s[i])
  }

  /** The filter keeps every accepted element with all its copies, drops
      every rejected one, and keeps the input order. */
  lemma {:induction false} FilterFacts<T>(s: seq<T>, keep: T -> bool)
    ensures var r := Filter(s, keep);
      && IsSubsequence(r, s)
      && (forall x :: multiset(r)[x] == if keep(x) then multiset(s)[x] else 0)
      && (forall x :: x in r <==> x in s && keep(x))
    decreases |s|
  {
    if s != [] {
      var rest := Filter(s[1..], keep);
      var r := Filter(s, keep);
      FilterFacts(s[1..], keep);
      FilterCounts(s, keep, rest, r);
      if !keep(s[0]) && rest != [] {
        assert rest[0] in rest;
        assert rest[0] != s[0];
      }
    }
  }

  lemma FilterCounts<T>(s: seq<T>, keep: T -> bool, rest: seq<T>, r: seq<T>)
    requires s != []
    requires forall x :: multiset(rest)[x] == if keep(x) then multiset(s[1..])[x] else 0
    requires r == if keep(s[0]) then [s[0]] + rest else rest
    ensures forall x :: multiset(r)[x] == if keep(x) then multiset(s)[x] else 0
    ensures forall x :: x in r <==> x in s && keep(x)
  {
    assert s == [s[0]] + s[1..];
    assert multiset(s) == multiset{s[0]} + multiset(s[1..]);
    forall x
      ensures multiset(r)[x] == if keep(x) then multiset(s)[x] else 0
    {
    }
    forall x
      ensures x in r <==> x in s && keep(x)
    {
      assert x in r <==> multiset(r)[x] > 0;
      assert x in s <==> multiset(s)[x] > 0;
    }
  }

  /** Filtering distributes over appending one element. */
  lemma {:induction false} FilterAppend<T>(s: seq<T>, x: T, keep: T -> bool)
    ensures Filter(s + [x], keep) == Filter(s, keep) + (if keep(x) then [x] else [])
    decreases |s|
  {
    if s == [] {
      assert [x][1..] == [];
    } else {
      assert (s + [x])[1..] == s[1..] + [x];
      FilterAppend(s[1..], x, keep);
    }
  }

  /** The filter drops exactly the rejected positions: kept plus dropped is
      the whole input. */
  lemma {:induction false} FilterCount<T>(s: seq<T>, keep: T -> bool)
    ensures |Filter(s, keep)| + |Dropped(s, keep)| == |s|
    decreases |s|
  {
    if s != [] {
      var n := |s| - 1;
      var init := s[..n];
      assert s == init + [s[n]];
      FilterAppend(init, s[n], keep);
      FilterCount(init, keep);
      DroppedStep(s, keep);
    }
  }

  /** Dropped positions of a non-empty sequence: those of its initial part,
      plus the last position when the last element is rejected. */
  lemma DroppedStep<T>(s: seq<T>, keep: T -> bool)
    requires s != []
    ensures |Dropped(s, keep)| == |Dropped(s[..|s| - 1], keep)| + if keep(s[|s| - 1]) then 0 else 1
  {
    var n := |s| - 1;
    var d0 := Dropped(s[..n], keep);
    assert n !in d0;
    if keep(s[n]) {
      assert Dropped(s, keep) == d0;
    } else {
      assert Dropped(s, keep) == d0 + {n};
    }
  }

  /** A filter that rejects nothing is the identity. */
  lemma {:induction false} FilterKeepsAll<T>(s: seq<T>, keep: T -> bool)
    requires forall i :: 0 <= i < |s| ==> keep(s[i])
    ensures Filter(s, keep) == s
    decreases |s|
  {
    if s != [] {
      assert keep(s[0]);
      assert forall i :: 0 <= i < |s| - 1 ==> s[1..][i] == s[i + 1];
      FilterKeepsAll(s[1..], keep);
      assert s == [s[0]] + s[1..];
    }
  }
}
