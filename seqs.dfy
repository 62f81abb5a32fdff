/** Sequence operations that the SQL statements and the UI's array methods
    are built from: `filter`, `map`, `ORDER BY` (a sort by a text key)
    and `LIMIT`. */
module Seqs {
  import opened Wrappers
  import opened Text

  function Min(a: nat, b: nat): nat { if a <= b then a else b }

  /** Array `map`. */
  function MapSeq<T, U>(s: seq<T>, f: T -> U): (r: seq<U>)
    ensures |r| == |s|
    ensures forall i :: 0 <= i < |s| ==> r[i] == f(s[i])
  {
    seq(|s|, i requires 0 <= i < |s| => f(s[i]))
  }

  /** Array `filter`, and `WHERE` over a table scanned in row order: the
      elements that satisfy `p`, in their original order. */
  function Filter<T>(s: seq<T>, p: T -> bool): (r: seq<T>)
    ensures |r| <= |s|
    decreases |s|
  {
    if |s| == 0 then [] else (if p(s[0]) then [s[0]] else []) + Filter(s[1..], p)
  }

  /** Exactly the elements that satisfy `p` are kept, each as often as it
      occurs in `s`. */
  lemma {:induction false} FilterElements<T(!new)>(s: seq<T>, p: T -> bool)
    ensures forall x :: x in Filter(s, p) <==> x in s && p(x)
    ensures forall x :: multiset(Filter(s, p))[x] == if p(x) then multiset(s)[x] else 0
    decreases |s|
  {
    if |s| > 0 {
      FilterElements(s[1..], p);
      assert s == [s[0]] + s[1..];
    }
  }

  /** `a` is `b` with some of its elements left out and the rest kept in
      their order. */
  predicate IsSubsequence<T(==)>(a: seq<T>, b: seq<T>)
    decreases |b|
  {
    |a| == 0 || (|b| > 0 && ((a[0] == b[0] && IsSubsequence(a[1..], b[1..])) || IsSubsequence(a, b[1..])))
  }

  lemma {:induction false} FilterIsSubsequence<T>(s: seq<T>, p: T -> bool)
    ensures IsSubsequence(Filter(s, p), s)
    decreases |s|
  {
    if |s| > 0 {
      FilterIsSubsequence(s[1..], p);
      if p(s[0]) {
        assert Filter(s, p) == [s[0]] + Filter(s[1..], p);
        assert Filter(s, p)[1..] == Filter(s[1..], p);
      } else {
        assert Filter(s, p) == Filter(s[1..], p);
      }
    }
  }

  /** Number of elements of `s` that satisfy `p`. */
  function Count<T>(s: seq<T>, p: T -> bool): nat
    decreases |s|
  {
    if |s| == 0 then 0 else (if p(s[0]) then 1 else 0) + Count(s[1..], p)
  }

  lemma {:induction false} FilterLength<T>(s: seq<T>, p: T -> bool)
    ensures |Filter(s, p)| == Count(s, p)
    decreases |s|
  {
    if |s| > 0 { FilterLength(s[1..], p); }
  }

  lemma MapSeqAppend<T, U>(a: seq<T>, b: seq<T>, f: T -> U)
    ensures MapSeq(a + b, f) == MapSeq(a, f) + MapSeq(b, f)
  {
  }

  lemma {:induction false} FilterAppend<T>(a: seq<T>, b: seq<T>, p: T -> bool)
    ensures Filter(a + b, p) == Filter(a, p) + Filter(b, p)
    decreases |a|
  {
    if |a| == 0 {
      assert a + b == b;
    } else {
      var head := if p(a[0]) then [a[0]] else [];
      assert (a + b)[0] == a[0] && (a + b)[1..] == a[1..] + b;
      assert Filter(a + b, p) == head + Filter(a[1..] + b, p);
      FilterAppend(a[1..], b, p);
      assert Filter(a, p) == head + Filter(a[1..], p);
    }
  }

  /** A filter that every element passes keeps the whole sequence. */
  lemma {:induction false} FilterAll<T>(s: seq<T>, p: T -> bool)
    requires forall i :: 0 <= i < |s| ==> p(s[i])
    ensures Filter(s, p) == s
    decreases |s|
  {
    if |s| > 0 {
      FilterAll(s[1..], p);
    }
  }

  /** Filtering with a predicate that `f` does not affect commutes with
      mapping by `f`. */
  lemma {:induction false} FilterMapCommute<T>(s: seq<T>, p: T -> bool, f: T -> T)
    requires forall x :: p(f(x)) == p(x)
    ensures Filter(MapSeq(s, f), p) == MapSeq(Filter(s, p), f)
    decreases |s|
  {
    if |s| > 0 {
      var m := MapSeq(s, f);
      var head := if p(s[0]) then [s[0]] else [];
      assert m[1..] == MapSeq(s[1..], f);
      FilterMapCommute(s[1..], p, f);
      assert Filter(m, p) == MapSeq(head, f) + Filter(m[1..], p);
      MapSeqAppend(head, Filter(s[1..], p), f);
    }
  }

  /** No two elements share a key. */
  predicate UniqueBy<T>(s: seq<T>, key: T -> int) {
    forall i, j :: 0 <= i < j < |s| ==> key(s[i]) != key(s[j])
  }

  /** A filtered sequence keeps unique keys unique. */
  lemma {:induction false} FilterUniqueBy<T(!new)>(s: seq<T>, p: T -> bool, key: T -> int)
    requires UniqueBy(s, key)
    ensures UniqueBy(Filter(s, p), key)
    decreases |s|
  {
    if |s| > 0 {
      FilterUniqueBy(s[1..], p, key);
      FilterElements(s[1..], p);
      var rest := Filter(s[1..], p);
      if p(s[0]) {
        forall j | 0 <= j < |rest| ensures key(s[0]) != key(rest[j]) {
          assert rest[j] in s[1..];
          var k :| 0 <= k < |s[1..]| && s[1..][k] == rest[j];
          assert s[k + 1] == rest[j];
        }
        var r := Filter(s, p);
        assert r == [s[0]] + rest;
        forall i, j | 0 <= i < j < |r| ensures key(r[i]) != key(r[j]) {
          if i > 0 { assert r[i] == rest[i - 1] && r[j] == rest[j - 1]; }
        }
      }
    }
  }

  /** Appending an element whose key exceeds every key keeps keys unique. */
  lemma AppendFreshUniqueBy<T>(s: seq<T>, x: T, key: T -> int)
    requires UniqueBy(s, key)
    requires forall i :: 0 <= i < |s| ==> key(s[i]) < key(x)
    ensures UniqueBy(s + [x], key)
  {
    var r := s + [x];
    forall i, j | 0 <= i < j < |r| ensures key(r[i]) != key(r[j]) {
      if j == |s| { assert r[i] == s[i]; } else { assert r[i] == s[i] && r[j] == s[j]; }
    }
  }

  /** A map that keeps every key keeps keys unique. */
  lemma MapUniqueBy<T>(s: seq<T>, f: T -> T, key: T -> int)
    requires UniqueBy(s, key)
    requires forall x :: key(f(x)) == key(x)
    ensures UniqueBy(MapSeq(s, f), key)
  {
    var r := MapSeq(s, f);
    forall i, j | 0 <= i < j < |r| ensures key(r[i]) != key(r[j]) {
      assert key(r[i]) == key(s[i]) && key(r[j]) == key(s[j]);
    }
  }

  /** Keys strictly increase along the sequence. */
  predicate AscendingBy<T>(s: seq<T>, key: T -> int) {
    forall i, j :: 0 <= i < j < |s| ==> key(s[i]) < key(s[j])
  }

  /** A filtered sequence keeps ascending keys ascending. */
  lemma {:induction false} FilterAscendingBy<T(!new)>(s: seq<T>, p: T -> bool, key: T -> int)
    requires AscendingBy(s, key)
    ensures AscendingBy(Filter(s, p), key)
    decreases |s|
  {
    if |s| > 0 {
      FilterAscendingBy(s[1..], p, key);
      FilterElements(s[1..], p);
      var rest := Filter(s[1..], p);
      if p(s[0]) {
        forall j | 0 <= j < |rest| ensures key(s[0]) < key(rest[j]) {
          assert rest[j] in s[1..];
          var k :| 0 <= k < |s[1..]| && s[1..][k] == rest[j];
          assert s[k + 1] == rest[j];
        }
        var r := Filter(s, p);
        assert r == [s[0]] + rest;
        forall i, j | 0 <= i < j < |r| ensures key(r[i]) < key(r[j]) {
          if i > 0 { assert r[i] == rest[i - 1] && r[j] == rest[j - 1]; }
        }
      }
    }
  }

  /** Appending an element whose key exceeds every key keeps keys ascending. */
  lemma AppendFreshAscendingBy<T>(s: seq<T>, x: T, key: T -> int)
    requires AscendingBy(s, key)
    requires forall i :: 0 <= i < |s| ==> key(s[i]) < key(x)
    ensures AscendingBy(s + [x], key)
  {
    var r := s + [x];
    forall i, j | 0 <= i < j < |r| ensures key(r[i]) < key(r[j]) {
      if j == |s| { assert r[i] == s[i]; } else { assert r[i] == s[i] && r[j] == s[j]; }
    }
  }

  /** A map that keeps every key keeps keys ascending. */
  lemma MapAscendingBy<T>(s: seq<T>, f: T -> T, key: T -> int)
    requires AscendingBy(s, key)
    requires forall x :: key(f(x)) == key(x)
    ensures AscendingBy(MapSeq(s, f), key)
  {
    var r := MapSeq(s, f);
    forall i, j | 0 <= i < j < |r| ensures key(r[i]) < key(r[j]) {
      assert key(r[i]) == key(s[i]) && key(r[j]) == key(s[j]);
    }
  }

  /** The elements whose key is `id`. */
  function KeyIs<T>(key: T -> int, id: int): T -> bool {
    (x: T) => key(x) == id
  }

  /** The elements whose key is not `id`. */
  function KeyIsNot<T>(key: T -> int, id: int): T -> bool {
    (x: T) => key(x) != id
  }

  /** Under unique keys, at most one element has a given key: exactly one
      when some element has it. */
  lemma {:induction false} CountUniqueKey<T>(s: seq<T>, key: T -> int, id: int)
    requires UniqueBy(s, key)
    ensures Count(s, KeyIs(key, id)) == if exists i :: 0 <= i < |s| && key(s[i]) == id then 1 else 0
    decreases |s|
  {
    if |s| > 0 {
      assert UniqueBy(s[1..], key) by {
        forall i, j | 0 <= i < j < |s[1..]| ensures key(s[1..][i]) != key(s[1..][j]) {
          assert s[1..][i] == s[i + 1] && s[1..][j] == s[j + 1];
        }
      }
      CountUniqueKey(s[1..], key, id);
      if key(s[0]) == id {
        forall i | 0 <= i < |s[1..]| ensures key(s[1..][i]) != id {
          assert s[1..][i] == s[i + 1];
        }
      } else {
        if exists i :: 0 <= i < |s| && key(s[i]) == id {
          var i :| 0 <= i < |s| && key(s[i]) == id;
          assert s[1..][i - 1] == s[i];
        }
        if exists i :: 0 <= i < |s[1..]| && key(s[1..][i]) == id {
          var i :| 0 <= i < |s[1..]| && key(s[1..][i]) == id;
          assert s[i + 1] == s[1..][i];
        }
      }
    }
  }

  predicate NoDuplicates<T(==)>(s: seq<T>) {
    forall i, j :: 0 <= i < j < |s| ==> s[i] != s[j]
  }

  /** A filtered sequence keeps its elements distinct. */
  lemma {:induction false} FilterNoDuplicates<T(!new)>(s: seq<T>, p: T -> bool)
    requires NoDuplicates(s)
    ensures NoDuplicates(Filter(s, p))
    decreases |s|
  {
    if |s| > 0 {
      assert NoDuplicates(s[1..]) by {
        forall i, j | 0 <= i < j < |s[1..]| ensures s[1..][i] != s[1..][j] {
          assert s[1..][i] == s[i + 1] && s[1..][j] == s[j + 1];
        }
      }
      FilterNoDuplicates(s[1..], p);
      FilterElements(s[1..], p);
      var rest := Filter(s[1..], p);
      if p(s[0]) {
        assert s[0] !in s[1..] by {
          forall k | 0 <= k < |s[1..]| ensures s[1..][k] != s[0] { assert s[1..][k] == s[k + 1]; }
        }
        var r := Filter(s, p);
        assert r == [s[0]] + rest;
        forall i, j | 0 <= i < j < |r| ensures r[i] != r[j] {
          if i > 0 { assert r[i] == rest[i - 1] && r[j] == rest[j - 1]; } else { assert r[j] in rest; }
        }
      }
    }
  }

  // ---------------------------------------------------------------------
  // ORDER BY on a nullable text key
  // ---------------------------------------------------------------------

  /** A sort key: a text column, NULL when absent. */
  type Key = Option<string>

  /** SQLite's ascending order on a text column: NULL first, then text in
      code point order. */
  predicate KeyLe(a: Key, b: Key) {
    match a
    case None => true
    case Some(x) => b.Some? && StrLe(x, b.value)
  }

  lemma KeyLeTotal(a: Key, b: Key)
    ensures KeyLe(a, b) || KeyLe(b, a)
  {
    if a.Some? && b.Some? { StrLeTotal(a.value, b.value); }
  }

  lemma KeyLeTransitive(a: Key, b: Key, c: Key)
    requires KeyLe(a, b) && KeyLe(b, c)
    ensures KeyLe(a, c)
  {
    if a.Some? { StrLeTransitive(a.value, b.value, c.value); }
  }

  predicate SortedBy<T>(s: seq<T>, key: T -> Key) {
    forall i, j :: 0 <= i < j < |s| ==> KeyLe(key(s[i]), key(s[j]))
  }

  function InsertBy<T>(x: T, s: seq<T>, key: T -> Key): (r: seq<T>)
    ensures multiset(r) == multiset(s) + multiset{x}
    decreases |s|
  {
    if |s| == 0 then [x]
    else if KeyLe(key(x), key(s[0])) then [x] + s
    else
      assert s == [s[0]] + s[1..];
      [s[0]] + InsertBy(x, s[1..], key)
  }

  /** A stable insertion sort: the model's choice among the orders that
      `ORDER BY` may return when keys tie. */
  function SortBy<T>(s: seq<T>, key: T -> Key): (r: seq<T>)
    ensures multiset(r) == multiset(s)
    decreases |s|
  {
    if |s| == 0 then []
    else
      assert s == [s[0]] + s[1..];
      InsertBy(s[0], SortBy(s[1..], key), key)
  }

  lemma {:induction false} InsertBySorted<T>(x: T, s: seq<T>, key: T -> Key)
    requires SortedBy(s, key)
    ensures SortedBy(InsertBy(x, s, key), key)
    decreases |s|
  {
    var r := InsertBy(x, s, key);
    if |s| == 0 {
    } else if KeyLe(key(x), key(s[0])) {
      forall i, j | 0 <= i < j < |r| ensures KeyLe(key(r[i]), key(r[j])) {
        if i == 0 && j > 1 { KeyLeTransitive(key(x), key(s[0]), key(s[j - 1])); }
      }
    } else {
      KeyLeTotal(key(x), key(s[0]));
      InsertBySorted(x, s[1..], key);
      var tail := InsertBy(x, s[1..], key);
      forall j | 0 <= j < |tail| ensures KeyLe(key(s[0]), key(tail[j])) {
        assert tail[j] in multiset(tail);
        assert tail[j] == x || tail[j] in multiset(s[1..]);
        if tail[j] != x {
          var k :| 1 <= k < |s| && s[k] == tail[j];
        }
      }
    }
  }

  lemma {:induction false} SortBySorted<T>(s: seq<T>, key: T -> Key)
    ensures SortedBy(SortBy(s, key), key)
    decreases |s|
  {
    if |s| > 0 {
      SortBySorted(s[1..], key);
      InsertBySorted(s[0], SortBy(s[1..], key), key);
    }
  }

  lemma {:induction false} InsertByMapCommute<T>(x: T, s: seq<T>, key: T -> Key, f: T -> T)
    requires forall y :: key(f(y)) == key(y)
    ensures InsertBy(f(x), MapSeq(s, f), key) == MapSeq(InsertBy(x, s, key), f)
    decreases |s|
  {
    if |s| > 0 {
      var ms := MapSeq(s, f);
      assert ms[0] == f(s[0]);
      assert ms[1..] == MapSeq(s[1..], f);
      if KeyLe(key(x), key(s[0])) {
        assert InsertBy(f(x), ms, key) == [f(x)] + ms;
        assert MapSeq([x] + s, f) == [f(x)] + ms;
      } else {
        InsertByMapCommute(x, s[1..], key, f);
        var tail := InsertBy(x, s[1..], key);
        assert InsertBy(x, s, key) == [s[0]] + tail;
        assert InsertBy(f(x), ms, key) == [ms[0]] + InsertBy(f(x), ms[1..], key);
        assert MapSeq([s[0]] + tail, f) == [f(s[0])] + MapSeq(tail, f);
      }
    }
  }

  /** Sorting commutes with any map that keeps the sort key. */
  lemma {:induction false} SortByMapCommute<T>(s: seq<T>, key: T -> Key, f: T -> T)
    requires forall y :: key(f(y)) == key(y)
    ensures SortBy(MapSeq(s, f), key) == MapSeq(SortBy(s, key), f)
    decreases |s|
  {
    if |s| > 0 {
      assert MapSeq(s, f)[0] == f(s[0]);
      assert MapSeq(s, f)[1..] == MapSeq(s[1..], f);
      SortByMapCommute(s[1..], key, f);
      InsertByMapCommute(s[0], SortBy(s[1..], key), key, f);
    }
  }

  // ---------------------------------------------------------------------
  // ORDER BY ... LIMIT n
  // ---------------------------------------------------------------------

  lemma PrefixOfSorted<T>(sorted: seq<T>, n: nat, key: T -> Key)
    requires n <= |sorted| && SortedBy(sorted, key)
    ensures SortedBy(sorted[..n], key)
    ensures multiset(sorted[..n]) <= multiset(sorted)
    ensures forall x, y :: x in sorted[..n] && y in multiset(sorted) - multiset(sorted[..n])
                           ==> KeyLe(key(x), key(y))
  {
    assert sorted == sorted[..n] + sorted[n..];
    assert multiset(sorted) == multiset(sorted[..n]) + multiset(sorted[n..]);
    forall x, y | x in sorted[..n] && y in multiset(sorted) - multiset(sorted[..n])
      ensures KeyLe(key(x), key(y))
    {
      assert y in multiset(sorted[n..]);
      var i :| 0 <= i < n && sorted[i] == x;
      var j :| n <= j < |sorted| && sorted[j] == y;
    }
  }

  /** `ORDER BY key LIMIT limit` over the rows `s`: as many rows as the
      limit allows, sorted, drawn from `s`, and no row left out sorts
      before a row returned. Which of several tying rows is returned is
      not promised. */
  function OrderLimit<T>(s: seq<T>, key: T -> Key, limit: nat): (r: seq<T>)
    ensures |r| == Min(limit, |s|)
    ensures SortedBy(r, key)
    ensures multiset(r) <= multiset(s)
    ensures forall x, y :: x in r && y in multiset(s) - multiset(r) ==> KeyLe(key(x), key(y))
  {
    var sorted := SortBy(s, key);
    SortBySorted(s, key);
    assert |sorted| == |multiset(sorted)| == |s|;
    var n := Min(limit, |sorted|);
    PrefixOfSorted(sorted, n, key);
    sorted[..n]
  }

  /** The distinct values of `s`, in order of first occurrence. */
  function Distinct<T(==,!new)>(s: seq<T>): (r: seq<T>)
    ensures NoDuplicates(r)
    ensures forall x :: x in r <==> x in s
    decreases |s|
  {
    if |s| == 0 then []
    else
      var rest := Distinct(s[..|s| - 1]);
      if s[|s| - 1] in rest then rest else rest + [s[|s| - 1]]
  }

  lemma NoDuplicatesCount<T>(s: seq<T>, x: T)
    requires NoDuplicates(s)
    ensures multiset(s)[x] == if x in s then 1 else 0
    decreases |s|
  {
    if |s| > 0 {
      assert s == [s[0]] + s[1..];
      NoDuplicatesCount(s[1..], x);
    }
  }
}
