/** Python's orderings: string comparison, the stable `sorted`/`list.sort`
    used with a key, and `sorted(some_set)` of strings. */
module Ordering {
  import opened Common

  /** Python's `a < b` on str: lexicographic by code point, a proper
      prefix being smaller. */
  predicate StrLt(a: string, b: string)
    decreases |a|
  {
    if a == [] then b != []
    else if b == [] then false
    else if a[0] != b[0] then a[0] < b[0]
    else StrLt(a[1..], b[1..])
  }

  predicate StrLe(a: string, b: string)
  {
    a == b || StrLt(a, b)
  }

  lemma {:induction false} StrLtIrreflexive(a: string)
    ensures !StrLt(a, a)
    decreases |a|
  {
    if a != [] {
      StrLtIrreflexive(a[1..]);
    }
  }

  lemma {:induction false} StrLtAsymmetric(a: string, b: string)
    ensures !(StrLt(a, b) && StrLt(b, a))
    decreases |a|
  {
    if a != [] && b != [] && a[0] == b[0] {
      StrLtAsymmetric(a[1..], b[1..]);
    }
  }

  lemma {:induction false} StrLtTransitive(a: string, b: string, c: string)
    requires StrLt(a, b) && StrLt(b, c)
    ensures StrLt(a, c)
    decreases |a|
  {
    if a != [] && a[0] == b[0] && b[0] == c[0] {
      StrLtTransitive(a[1..], b[1..], c[1..]);
    }
  }

  lemma {:induction false} StrLtTotal(a: string, b: string)
    requires a != b
    ensures StrLt(a, b) || StrLt(b, a)
    decreases |a|
  {
    if a != [] && b != [] && a[0] == b[0] {
      assert a == [a[0]] + a[1..] && b == [b[0]] + b[1..];
      StrLtTotal(a[1..], b[1..]);
    }
  }

  lemma StrLeTransitive(a: string, b: string, c: string)
    requires StrLe(a, b) && StrLe(b, c)
    ensures StrLe(a, c)
  {
    if a != b && b != c {
      StrLtTransitive(a, b, c);
    }
  }

  /** Strictly ascending: the shape of `sorted(s)` for a set s. */
  predicate StrictlyIncreasing(r: seq<string>)
  {
    forall i, j :: 0 <= i < j < |r| ==> StrLt(r[i], r[j])
  }

  lemma {:induction false} MinimumExists(s: set<string>)
    requires s != {}
    ensures exists m :: m in s && forall y :: y in s ==> StrLe(m, y)
    decreases |s|
  {
    var x :| x in s;
    var rest := s - {x};
    if rest == {} {
      assert s == {x};
      assert forall y :: y in s ==> StrLe(x, y);
    } else {
      MinimumExists(rest);
      var m :| m in rest && forall y :: y in rest ==> StrLe(m, y);
      var n := SmallerOf(s, x, m);
    }
  }

  /** The smaller of x and the least element m of the rest of s is the
      least element of s. */
  lemma SmallerOf(s: set<string>, x: string, m: string) returns (n: string)
    requires x in s && m in s - {x}
    requires forall y :: y in s - {x} ==> StrLe(m, y)
    ensures n in s && forall y :: y in s ==> StrLe(n, y)
  {
    if StrLe(m, x) {
      n := m;
    } else {
      StrLtTotal(m, x);
      n := x;
      forall y | y in s ensures StrLe(x, y) {
        if y != x {
          StrLeTransitive(x, m, y);
        }
      }
    }
  }

  /** A set has only one strictly ascending listing. */
  lemma {:induction false} SortedUnique(a: seq<string>, b: seq<string>)
    requires StrictlyIncreasing(a) && StrictlyIncreasing(b)
    requires forall x :: x in a <==> x in b
    ensures a == b
    decreases |a|
  {
    if a == [] {
      NoMembers(b);
    } else {
      assert a[0] in b && b != [] && b[0] in a;
      var i :| 0 <= i < |a| && a[i] == b[0];
      var j :| 0 <= j < |b| && b[j] == a[0];
      if i > 0 && j > 0 {
        StrLtAsymmetric(a[0], b[0]);
      }
      assert a[0] == b[0] by {
        if i > 0 && j == 0 {}
        if i == 0 {}
      }
      forall x ensures x in a[1..] <==> x in b[1..] {
        if x in a[1..] {
          var k :| 1 <= k < |a| && a[k] == x;
          StrLtIrreflexive(a[0]);
          assert x != a[0];
          assert x in b;
        }
        if x in b[1..] {
          var k :| 1 <= k < |b| && b[k] == x;
          StrLtIrreflexive(b[0]);
          assert x != b[0];
          assert x in a;
        }
      }
      SortedUnique(a[1..], b[1..]);
      assert a == [a[0]] + a[1..] && b == [b[0]] + b[1..];
    }
  }

  lemma NoMembers(b: seq<string>)
    requires forall x :: x !in b
    ensures b == []
  {
    if b != [] {
      HeadIsMember(b);
      assert false;
    }
  }

  lemma HeadIsMember(b: seq<string>)
    requires b != []
    ensures b[0] in b
  {
  }

  /** Two strings that agree up to position k and differ there are
      ordered by their k-th characters. */
  lemma {:induction false} StrLtAt(a: string, b: string, k: nat)
    requires k < |a| && k < |b| && a[..k] == b[..k] && a[k] < b[k]
    ensures StrLt(a, b)
    decreases k
  {
    if k > 0 {
      assert a[0] == a[..k][0] && b[0] == b[..k][0];
      assert a[1..][..k - 1] == a[..k][1..] && b[1..][..k - 1] == b[..k][1..];
      StrLtAt(a[1..], b[1..], k - 1);
    }
  }

  /** Ascending neighbours make an ascending sequence. */
  lemma {:induction false} ChainIncreasing(r: seq<string>)
    requires forall i :: 0 <= i < |r| - 1 ==> StrLt(r[i], r[i + 1])
    ensures StrictlyIncreasing(r)
    decreases |r|
  {
    if |r| > 1 {
      ChainIncreasing(r[1..]);
      forall j | 0 < j < |r| ensures StrLt(r[0], r[j]) {
        if j > 1 {
          assert StrLt(r[1..][0], r[1..][j - 1]);
          StrLtTransitive(r[0], r[1], r[j]);
        }
      }
      forall i, j | 0 <= i < j < |r| ensures StrLt(r[i], r[j]) {
        if i > 0 {
          assert StrLt(r[1..][i - 1], r[1..][j - 1]);
        }
      }
    }
  }

  /** `sorted(s)` for a set of strings: its elements in ascending order,
      each exactly once. */
  method SortedElements(s: set<string>) returns (r: seq<string>)
    ensures StrictlyIncreasing(r)
    ensures forall x :: x in r <==> x in s
    ensures |r| == |s|
  {
    r := [];
    var rest := s;
    while rest != {}
      invariant rest <= s
      invariant StrictlyIncreasing(r)
      invariant forall x :: x in s <==> x in r || x in rest
      invariant forall x :: x in r ==> x !in rest
      invariant forall i, y :: 0 <= i < |r| && y in rest ==> StrLt(r[i], y)
      invariant |r| + |rest| == |s|
      decreases |rest|
    {
      MinimumExists(rest);
      var m :| m in rest && forall y :: y in rest ==> StrLe(m, y);
      forall y | y in rest - {m} ensures StrLt(m, y) {
        assert StrLe(m, y);
      }
      r := r + [m];
      rest := rest - {m};
    }
  }

  //
  // The stable sort. `le(a, b)` says that a may stand before b; for
  // Python's `sorted(xs, key=k)` it is `k(a) <= k(b)`, and with
  // `reverse=True` it is `k(a) >= k(b)` (Python keeps equal keys in their
  // original order in both cases).
  //

  ghost predicate TotalPreorder<T(!new)>(le: (T, T) -> bool)
  {
    && (forall a, b :: le(a, b) || le(b, a))
    && (forall a, b, c :: le(a, b) && le(b, c) ==> le(a, c))
  }

  predicate SortedBy<T>(s: seq<T>, le: (T, T) -> bool)
  {
    forall i, j :: 0 <= i < j < |s| ==> le(s[i], s[j])
  }

  /** Places x after every leading element that may stand before it. */
  function Insert<T>(t: seq<T>, x: T, le: (T, T) -> bool): (r: seq<T>)
    ensures multiset(r) == multiset(t) + multiset{x}
    ensures |r| == |t| + 1
  {
    if t == [] then [x]
    else if le(t[0], x) then
      assert t == [t[0]] + t[1..];
      [t[0]] + Insert(t[1..], x, le)
    else [x] + t
  }

  /** Insertion sorting, one element at a time from the left, as a stable
      sort does. */
  function SortBy<T>(s: seq<T>, le: (T, T) -> bool): seq<T>
  {
    if s == [] then [] else Insert(SortBy(s[..|s| - 1], le), s[|s| - 1], le)
  }

  lemma SplitLast<T>(s: seq<T>)
    requires s != []
    ensures s == s[..|s| - 1] + [s[|s| - 1]]
  {
  }

  lemma {:induction false} SortIsPermutation<T>(s: seq<T>, le: (T, T) -> bool)
    ensures multiset(SortBy(s, le)) == multiset(s)
    ensures |SortBy(s, le)| == |s|
  {
    if s != [] {
      SortIsPermutation(s[..|s| - 1], le);
      SplitLast(s);
    }
  }

  lemma {:induction false} InsertSorted<T(!new)>(t: seq<T>, x: T, le: (T, T) -> bool)
    requires TotalPreorder(le) && SortedBy(t, le)
    ensures SortedBy(Insert(t, x, le), le)
  {
    if t != [] {
      if le(t[0], x) {
        InsertSorted(t[1..], x, le);
        var rest := Insert(t[1..], x, le);
        forall j | 0 <= j < |rest| ensures le(t[0], rest[j]) {
          assert rest[j] in multiset(rest);
          if rest[j] != x {
            assert rest[j] in multiset(t[1..]);
            var k :| 0 <= k < |t[1..]| && t[1..][k] == rest[j];
            assert t[k + 1] == rest[j];
          }
        }
      }
    }
  }

  lemma {:induction false} SortIsSorted<T(!new)>(s: seq<T>, le: (T, T) -> bool)
    requires TotalPreorder(le)
    ensures SortedBy(SortBy(s, le), le)
  {
    if s != [] {
      SortIsSorted(s[..|s| - 1], le);
      InsertSorted(SortBy(s[..|s| - 1], le), s[|s| - 1], le);
    }
  }

  predicate Equivalent<T>(le: (T, T) -> bool, a: T, b: T)
  {
    le(a, b) && le(b, a)
  }

  /** The elements of s that rank equal to y, in their order in s. */
  function SameRank<T>(s: seq<T>, le: (T, T) -> bool, y: T): seq<T>
  {
    if s == [] then []
    else (if Equivalent(le, s[0], y) then [s[0]] else []) + SameRank(s[1..], le, y)
  }

  lemma {:induction false} SameRankAppend<T>(a: seq<T>, b: seq<T>, le: (T, T) -> bool, y: T)
    ensures SameRank(a + b, le, y) == SameRank(a, le, y) + SameRank(b, le, y)
  {
    if a != [] {
      assert (a + b)[0] == a[0];
      assert (a + b)[1..] == a[1..] + b;
      SameRankAppend(a[1..], b, le, y);
      var head := if Equivalent(le, a[0], y) then [a[0]] else [];
      assert SameRank(a + b, le, y) == head + (SameRank(a[1..], le, y) + SameRank(b, le, y));
      assert SameRank(a, le, y) == head + SameRank(a[1..], le, y);
    } else {
      assert a + b == b;
    }
  }

  lemma SameRankCons<T>(h: T, r: seq<T>, le: (T, T) -> bool, y: T)
    ensures SameRank([h] + r, le, y) == (if Equivalent(le, h, y) then [h] else []) + SameRank(r, le, y)
  {
    assert ([h] + r)[0] == h && ([h] + r)[1..] == r;
  }

  lemma SplitFirst<T>(s: seq<T>)
    requires s != []
    ensures s == [s[0]] + s[1..]
  {
  }

  lemma {:induction false} InsertKeepsRanks<T(!new)>(t: seq<T>, x: T, le: (T, T) -> bool, y: T)
    requires TotalPreorder(le) && SortedBy(t, le)
    ensures SameRank(Insert(t, x, le), le, y)
      == SameRank(t, le, y) + (if Equivalent(le, x, y) then [x] else [])
  {
    if t != [] {
      var tail := if Equivalent(le, x, y) then [x] else [];
      if le(t[0], x) {
        var head := if Equivalent(le, t[0], y) then [t[0]] else [];
        var rest := Insert(t[1..], x, le);
        assert SortedBy(t[1..], le);
        InsertKeepsRanks(t[1..], x, le, y);
        SplitFirst(t);
        SameRankCons(t[0], t[1..], le, y);
        SameRankCons(t[0], rest, le, y);
        AppendAssoc(head, SameRank(t[1..], le, y), tail);
      } else {
        NoneRankBelow(t, x, le, y);
        SameRankCons(x, t, le, y);
      }
    }
  }

  /** When x must stand before the first element of a sorted t, nothing in
      t ranks equal to anything x ranks equal to. */
  lemma {:induction false} NoneRankBelow<T(!new)>(t: seq<T>, x: T, le: (T, T) -> bool, y: T)
    requires TotalPreorder(le) && SortedBy(t, le)
    requires t != [] && !le(t[0], x)
    ensures Equivalent(le, x, y) ==> SameRank(t, le, y) == []
    decreases |t|
  {
    if Equivalent(le, x, y) {
      assert !Equivalent(le, t[0], y);
      if |t| > 1 {
        assert !le(t[1], x);
        NoneRankBelow(t[1..], x, le, y);
      }
    }
  }

  /** Stability: among elements that rank equal, the sorted sequence keeps
      the original order. */
  lemma {:induction false} SortIsStable<T(!new)>(s: seq<T>, le: (T, T) -> bool, y: T)
    requires TotalPreorder(le)
    ensures SameRank(SortBy(s, le), le, y) == SameRank(s, le, y)
  {
    if s != [] {
      var init, last := s[..|s| - 1], s[|s| - 1];
      var tail := if Equivalent(le, last, y) then [last] else [];
      SortIsStable(init, le, y);
      SortIsSorted(init, le);
      InsertKeepsRanks(SortBy(init, le), last, le, y);
      assert SortBy(s, le) == Insert(SortBy(init, le), last, le);
      assert SameRank(SortBy(s, le), le, y) == SameRank(init, le, y) + tail;
      SplitLast(s);
      SameRankAppend(init, [last], le, y);
      assert SameRank([last], le, y) == tail + SameRank([], le, y);
    }
  }
}
