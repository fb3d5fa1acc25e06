/** Array operations the dashboards perform on fetched rows: `slice(0, n)`,
    `filter`, `filter(...).length`, `reduce` sums and a stable
    newest-first `sort`. */
module Lists {

  /** `s.slice(0, n)`: the first `n` elements, or all of them when there are fewer. */
  function Take<T>(s: seq<T>, n: nat): (r: seq<T>)
    ensures |r| == if |s| < n then |s| else n
    ensures r == s[..|r|]
  {
    if |s| <= n then s else s[..n]
  }

  /** `a` is `b` with some elements removed, the rest kept in order. */
  predicate IsSubsequence<T(==)>(a: seq<T>, b: seq<T>)
    decreases |b|
  {
    |a| == 0 || (|b| > 0 && if a[0] == b[0] then IsSubsequence(a[1..], b[1..]) else IsSubsequence(a, b[1..]))
  }

  /** `s.map(f)`. */
  function Map<T, U>(f: T -> U, s: seq<T>): (r: seq<U>)
    ensures |r| == |s|
    ensures forall i :: 0 <= i < |s| ==> r[i] == f(s[i])
  {
    seq(|s|, i requires 0 <= i < |s| => f(s[i]))
  }

  /** Truncating twice keeps the shorter of the two limits: the overview's
      `slice(0, 3)` of a history fetched with `limit(10)` is the first three rows. */
  lemma TakeTake<T>(s: seq<T>, m: nat, n: nat)
    ensures Take(Take(s, m), n) == Take(s, if m < n then m else n)
  {
  }

  /** `s.filter(p)`: exactly the elements satisfying `p`, in their original order. */
  function Filter<T(==)>(p: T -> bool, s: seq<T>): (r: seq<T>)
    ensures IsSubsequence(r, s)
    ensures forall i :: 0 <= i < |r| ==> p(r[i])
    ensures forall i :: 0 <= i < |s| && p(s[i]) ==> s[i] in r
    ensures |r| <= |s|
  {
    if |s| == 0 then []
    else if p(s[0]) then [s[0]] + Filter(p, s[1..])
    else Filter(p, s[1..])
  }

  /** Filtering distributes over concatenation. */
  lemma {:induction false} FilterAppend<T>(p: T -> bool, a: seq<T>, b: seq<T>)
    ensures Filter(p, a + b) == Filter(p, a) + Filter(p, b)
    decreases |a|
  {
    if |a| > 0 {
      assert (a + b)[0] == a[0];
      assert (a + b)[1..] == a[1..] + b;
      FilterAppend(p, a[1..], b);
      if p(a[0]) {
        assert Filter(p, a + b) == [a[0]] + Filter(p, a[1..] + b);
        assert Filter(p, a) == [a[0]] + Filter(p, a[1..]);
      } else {
        assert Filter(p, a + b) == Filter(p, a[1..] + b);
      }
    } else {
      assert a + b == b;
    }
  }

  /** A predicate every element satisfies filters nothing away. */
  lemma {:induction false} FilterAll<T>(p: T -> bool, s: seq<T>)
    requires forall i :: 0 <= i < |s| ==> p(s[i])
    ensures Filter(p, s) == s
    decreases |s|
  {
    if |s| > 0 {
      FilterAll(p, s[1..]);
    }
  }

  /** `s.filter(p).length`. */
  function Count<T>(p: T -> bool, s: seq<T>): (n: nat)
    ensures n <= |s|
  {
    if |s| == 0 then 0 else (if p(s[0]) then 1 else 0) + Count(p, s[1..])
  }

  /** The count is the length of the filtered list, and it reaches `|s|`
      exactly when every element satisfies `p`. */
  lemma {:induction false} CountIsFilterLength<T>(p: T -> bool, s: seq<T>)
    ensures Count(p, s) == |Filter(p, s)|
    ensures Count(p, s) == |s| <==> forall i :: 0 <= i < |s| ==> p(s[i])
    decreases |s|
  {
    if |s| > 0 {
      CountIsFilterLength(p, s[1..]);
      if Count(p, s) == |s| {
        assert p(s[0]);
        forall i | 0 <= i < |s| ensures p(s[i]) {
          if i > 0 { assert s[i] == s[1..][i - 1]; }
        }
      }
      if forall i :: 0 <= i < |s| ==> p(s[i]) {
        assert forall i :: 0 <= i < |s| - 1 ==> p(s[1..][i]) by {
          forall i | 0 <= i < |s| - 1 ensures p(s[1..][i]) { assert s[1..][i] == s[i + 1]; }
        }
      }
    }
  }

  /** `s.reduce((acc, x) => acc + f(x), 0)`. */
  function Sum<T>(f: T -> real, s: seq<T>): real {
    if |s| == 0 then 0.0 else f(s[0]) + Sum(f, s[1..])
  }

  /** Sums split over concatenation. */
  lemma {:induction false} SumAppend<T>(f: T -> real, a: seq<T>, b: seq<T>)
    ensures Sum(f, a + b) == Sum(f, a) + Sum(f, b)
    decreases |a|
  {
    if |a| > 0 {
      assert (a + b)[0] == a[0];
      assert (a + b)[1..] == a[1..] + b;
      SumAppend(f, a[1..], b);
      assert Sum(f, a + b) == f(a[0]) + Sum(f, a[1..] + b);
    } else {
      assert a + b == b;
    }
  }

  /** A sum of non-negative terms is non-negative. */
  lemma {:induction false} SumNonNegative<T>(f: T -> real, s: seq<T>)
    requires forall i :: 0 <= i < |s| ==> f(s[i]) >= 0.0
    ensures Sum(f, s) >= 0.0
    decreases |s|
  {
    if |s| > 0 {
      assert forall i :: 0 <= i < |s| - 1 ==> s[1..][i] == s[i + 1];
      SumNonNegative(f, s[1..]);
    }
  }

  /** Summing the same terms of two lists of equal length gives the same total. */
  lemma {:induction false} SumPointwise<T, U>(f: T -> real, s: seq<T>, g: U -> real, u: seq<U>)
    requires |s| == |u|
    requires forall i :: 0 <= i < |s| ==> f(s[i]) == g(u[i])
    ensures Sum(f, s) == Sum(g, u)
    decreases |s|
  {
    if |s| > 0 {
      assert forall i :: 0 <= i < |s| - 1 ==> s[1..][i] == s[i + 1] && u[1..][i] == u[i + 1];
      SumPointwise(f, s[1..], g, u[1..]);
    }
  }

  // ---------------------------------------------------------------------
  // Newest-first stable sort

  ghost predicate SortedDesc<T>(key: T -> int, s: seq<T>) {
    forall i, j :: 0 <= i < j < |s| ==> key(s[i]) >= key(s[j])
  }

  /** Inserts `x` in front of the first element whose key is not larger, so an
      element ahead of equal keys stays ahead. */
  function InsertDesc<T(==)>(key: T -> int, x: T, s: seq<T>): (r: seq<T>)
    requires SortedDesc(key, s)
    ensures SortedDesc(key, r)
    ensures multiset(r) == multiset(s) + multiset{x}
    ensures |r| == |s| + 1
  {
    if |s| == 0 || key(x) >= key(s[0]) then
      assert SortedDesc(key, [x] + s) by {
        ConsSorted(key, x, s);
      }
      [x] + s
    else
      var rest := InsertDesc(key, x, s[1..]);
      assert s == [s[0]] + s[1..];
      assert SortedDesc(key, [s[0]] + rest) by {
        HeadBoundsInsert(key, x, s, rest);
        ConsSorted(key, s[0], rest);
      }
      [s[0]] + rest
  }

  /** A head at least as new as every element keeps the list newest-first. */
  lemma ConsSorted<T>(key: T -> int, h: T, s: seq<T>)
    requires SortedDesc(key, s)
    requires forall j :: 0 <= j < |s| ==> key(s[j]) <= key(h)
    ensures SortedDesc(key, [h] + s)
  {
    var r := [h] + s;
    forall i, j | 0 <= i < j < |r| ensures key(r[i]) >= key(r[j]) {
      assert r[j] == s[j - 1];
      if i > 0 {
        assert r[i] == s[i - 1];
      }
    }
  }

  /** Inserting an element older than the head of a newest-first list leaves
      every element no newer than that head. */
  lemma HeadBoundsInsert<T>(key: T -> int, x: T, s: seq<T>, rest: seq<T>)
    requires SortedDesc(key, s) && |s| > 0 && key(x) < key(s[0])
    requires multiset(rest) == multiset(s[1..]) + multiset{x}
    ensures forall j :: 0 <= j < |rest| ==> key(rest[j]) <= key(s[0])
  {
    forall j | 0 <= j < |rest| ensures key(rest[j]) <= key(s[0]) {
      assert rest[j] in multiset(rest);
      if rest[j] != x {
        assert rest[j] in multiset(s[1..]);
        var k :| 0 <= k < |s[1..]| && s[1..][k] == rest[j];
        assert s[k + 1] == rest[j];
      }
    }
  }

  /** `s.sort((a, b) => key(b) - key(a))`: newest first, ties kept in input order. */
  function SortDesc<T(==)>(key: T -> int, s: seq<T>): (r: seq<T>)
    ensures SortedDesc(key, r)
    ensures multiset(r) == multiset(s)
    ensures |r| == |s|
  {
    if |s| == 0 then []
    else
      assert s == [s[0]] + s[1..];
      InsertDesc(key, s[0], SortDesc(key, s[1..]))
  }

  /** A prefix of a newest-first list is newest-first and holds only its elements. */
  lemma TakeSortedSub<T>(key: T -> int, s: seq<T>, n: nat)
    requires SortedDesc(key, s)
    ensures SortedDesc(key, Take(s, n))
    ensures multiset(Take(s, n)) <= multiset(s)
  {
    var r := Take(s, n);
    assert s == r + s[|r|..];
  }

  /** An element of two mapped lists joined is the image of an element of one of them. */
  lemma InMapAppend<T, U, V>(f: T -> V, s: seq<T>, g: U -> V, u: seq<U>, x: V)
    requires x in Map(f, s) + Map(g, u)
    ensures (exists i :: 0 <= i < |s| && x == f(s[i])) || (exists j :: 0 <= j < |u| && x == g(u[j]))
  {
    var all := Map(f, s) + Map(g, u);
    var k :| 0 <= k < |all| && all[k] == x;
    if k < |s| {
      assert all[k] == f(s[k]);
    } else {
      assert all[k] == g(u[k - |s|]);
    }
  }

  /** Sorting a list that is already newest-first returns it unchanged: the
      sort is stable. */
  lemma {:induction false} SortDescSorted<T>(key: T -> int, s: seq<T>)
    requires SortedDesc(key, s)
    ensures SortDesc(key, s) == s
    decreases |s|
  {
    if |s| > 0 {
      assert SortedDesc(key, s[1..]);
      SortDescSorted(key, s[1..]);
    }
  }
}
