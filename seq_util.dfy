/** Sequence operations the pages rely on: `Array.prototype.filter` and the
    store's row filters (`Filter`), `reduce((sum, x) => sum + f(x), 0)`
    (`Total`) and the store's `order(...)` (`SortBy`). */
module SeqUtil {

  /** The elements of `s` that satisfy `p`, in their original order. */
  function Filter<T(!new)>(s: seq<T>, p: T -> bool): (r: seq<T>)
    ensures |r| <= |s|
    ensures forall x :: x in r <==> x in s && p(x)
  {
    if s == [] then []
    else Filter(s[..|s| - 1], p) + (if p(s[|s| - 1]) then [s[|s| - 1]] else [])
  }

  lemma FilterSnoc<T(!new)>(s: seq<T>, x: T, p: T -> bool)
    ensures Filter(s + [x], p) == Filter(s, p) + (if p(x) then [x] else [])
  {
    assert (s + [x])[..|s|] == s;
  }

  lemma {:induction false} FilterAppend<T(!new)>(a: seq<T>, b: seq<T>, p: T -> bool)
    ensures Filter(a + b, p) == Filter(a, p) + Filter(b, p)
    decreases |b|
  {
    if b == [] {
      assert a + b == a;
    } else {
      var b' := b[..|b| - 1];
      assert (a + b)[..|a + b| - 1] == a + b';
      assert (a + b)[|a + b| - 1] == b[|b| - 1];
      FilterAppend(a, b', p);
    }
  }

  /** Filtering a sequence none of whose elements passes gives nothing. */
  lemma {:induction false} FilterNone<T(!new)>(s: seq<T>, p: T -> bool)
    requires forall x :: x in s ==> !p(x)
    ensures Filter(s, p) == []
  {
    if s != [] {
      var s' := s[..|s| - 1];
      assert forall x :: x in s' ==> x in s;
      assert s[|s| - 1] in s;
      FilterNone(s', p);
    }
  }

  /** Filtering first by a weaker predicate changes nothing. */
  lemma {:induction false} FilterOfFilter<T(!new)>(s: seq<T>, q: T -> bool, p: T -> bool)
    requires forall x :: p(x) ==> q(x)
    ensures Filter(Filter(s, q), p) == Filter(s, p)
  {
    if s != [] {
      var s' := s[..|s| - 1];
      var x := s[|s| - 1];
      assert s == s' + [x];
      FilterOfFilter(s', q, p);
      FilterSnoc(s', x, q);
      FilterSnoc(s', x, p);
      if q(x) {
        FilterSnoc(Filter(s', q), x, p);
      } else {
        assert Filter(s', q) + [] == Filter(s', q);
      }
    }
  }

  /** The sum of `f` over `s`, added left to right from 0. */
  function Total<T>(s: seq<T>, f: T -> real): real
  {
    if s == [] then 0.0 else Total(s[..|s| - 1], f) + f(s[|s| - 1])
  }

  lemma TotalSnoc<T>(s: seq<T>, x: T, f: T -> real)
    ensures Total(s + [x], f) == Total(s, f) + f(x)
  {
    assert (s + [x])[..|s|] == s;
  }

  lemma {:induction false} TotalAppend<T>(a: seq<T>, b: seq<T>, f: T -> real)
    ensures Total(a + b, f) == Total(a, f) + Total(b, f)
    decreases |b|
  {
    if b == [] {
      assert a + b == a;
    } else {
      var b' := b[..|b| - 1];
      assert (a + b)[..|a + b| - 1] == a + b';
      assert (a + b)[|a + b| - 1] == b[|b| - 1];
      TotalAppend(a, b', f);
    }
  }

  lemma {:induction false} TotalNonnegative<T>(s: seq<T>, f: T -> real)
    requires forall x :: x in s ==> f(x) >= 0.0
    ensures Total(s, f) >= 0.0
  {
    if s != [] {
      var s' := s[..|s| - 1];
      assert forall x :: x in s' ==> x in s;
      assert s[|s| - 1] in s;
      TotalNonnegative(s', f);
    }
  }

  /** `s` is in ascending order of `key`. */
  ghost predicate SortedBy<T>(s: seq<T>, key: T -> int)
  {
    forall i, j :: 0 <= i < j < |s| ==> key(s[i]) <= key(s[j])
  }

  /** Places `x` in front of the first element whose key is not smaller. */
  function Insert<T>(x: T, s: seq<T>, key: T -> int): (r: seq<T>)
    ensures multiset(r) == multiset(s) + multiset{x}
  {
    if s == [] || key(x) <= key(s[0]) then [x] + s
    else
      assert s == [s[0]] + s[1..];
      [s[0]] + Insert(x, s[1..], key)
  }

  /** A bound below every key of `s` and below `x` stays below every key after the insertion. */
  lemma {:induction false} InsertBound<T>(x: T, s: seq<T>, key: T -> int, b: int)
    requires b <= key(x)
    requires forall i :: 0 <= i < |s| ==> b <= key(s[i])
    ensures forall i :: 0 <= i < |Insert(x, s, key)| ==> b <= key(Insert(x, s, key)[i])
    decreases |s|
  {
    if s != [] && key(x) > key(s[0]) {
      InsertBound(x, s[1..], key, b);
    }
  }

  lemma {:induction false} InsertSorted<T>(x: T, s: seq<T>, key: T -> int)
    requires SortedBy(s, key)
    ensures SortedBy(Insert(x, s, key), key)
    decreases |s|
  {
    if s != [] && key(x) > key(s[0]) {
      var rest := Insert(x, s[1..], key);
      InsertSorted(x, s[1..], key);
      InsertBound(x, s[1..], key, key(s[0]));
      SortedCons(s[0], rest, key);
    }
  }

  lemma SortedCons<T>(a: T, s: seq<T>, key: T -> int)
    requires SortedBy(s, key)
    requires forall i :: 0 <= i < |s| ==> key(a) <= key(s[i])
    ensures SortedBy([a] + s, key)
  {
    var r := [a] + s;
    forall i, j | 0 <= i < j < |r|
      ensures key(r[i]) <= key(r[j])
    {
      assert r[j] == s[j - 1];
      if i > 0 {
        assert r[i] == s[i - 1];
      }
    }
  }

  /** A stable ascending sort by `key`: the order the store returns for
      `order(column)`, with ties left in table order. */
  function SortBy<T>(s: seq<T>, key: T -> int): (r: seq<T>)
    ensures multiset(r) == multiset(s)
    ensures SortedBy(r, key)
  {
    if s == [] then []
    else
      assert s == [s[0]] + s[1..];
      InsertSorted(s[0], SortBy(s[1..], key), key);
      Insert(s[0], SortBy(s[1..], key), key)
  }

  lemma SortByLength<T>(s: seq<T>, key: T -> int)
    ensures |SortBy(s, key)| == |s|
  {
    assert |multiset(SortBy(s, key))| == |multiset(s)|;
  }

  lemma SortByMembers<T>(s: seq<T>, key: T -> int)
    ensures forall x :: x in SortBy(s, key) <==> x in s
  {
    var r := SortBy(s, key);
    assert forall x :: x in r <==> x in multiset(r);
    assert forall x :: x in s <==> x in multiset(s);
  }

  lemma TotalCons<T>(a: T, s: seq<T>, f: T -> real)
    ensures Total([a] + s, f) == f(a) + Total(s, f)
  {
    TotalAppend([a], s, f);
    assert [a][..0] == [];
  }

  lemma {:induction false} TotalInsert<T>(x: T, s: seq<T>, key: T -> int, f: T -> real)
    ensures Total(Insert(x, s, key), f) == f(x) + Total(s, f)
    decreases |s|
  {
    if s == [] || key(x) <= key(s[0]) {
      TotalCons(x, s, f);
    } else {
      var rest := Insert(x, s[1..], key);
      TotalInsert(x, s[1..], key, f);
      TotalCons(s[0], rest, f);
      assert s == [s[0]] + s[1..];
      TotalCons(s[0], s[1..], f);
    }
  }

  /** Sorting does not change a sum. */
  lemma {:induction false} TotalSortBy<T>(s: seq<T>, key: T -> int, f: T -> real)
    ensures Total(SortBy(s, key), f) == Total(s, f)
    decreases |s|
  {
    if s != [] {
      var sorted := SortBy(s[1..], key);
      assert SortBy(s, key) == Insert(s[0], sorted, key);
      assert Total(sorted, f) == Total(s[1..], f) by { TotalSortBy(s[1..], key, f); }
      assert Total(Insert(s[0], sorted, key), f) == f(s[0]) + Total(sorted, f) by {
        TotalInsert(s[0], sorted, key, f);
      }
      assert Total(s, f) == f(s[0]) + Total(s[1..], f) by {
        assert s == [s[0]] + s[1..];
        TotalCons(s[0], s[1..], f);
      }
    }
  }
}
