/** Strictly increasing enumerations of finite sets of naturals: what `sorted` yields for distinct keys. */
module Ordering {
  predicate Increasing(s: seq<nat>) {
    forall i, j :: 0 <= i < j < |s| ==> s[i] < s[j]
  }

  lemma PrependIncreasing(x: nat, s: seq<nat>)
    requires Increasing(s) && forall y :: y in s ==> x < y
    ensures Increasing([x] + s)
  {
    var all := [x] + s;
    forall i, j | 0 <= i < j < |all| ensures all[i] < all[j] {
      assert all[j] == s[j - 1] && s[j - 1] in s;
      if i > 0 {
        assert all[i] == s[i - 1];
      }
    }
  }

  predicate Least(s: set<nat>, m: nat) {
    m in s && forall x :: x in s ==> m <= x
  }

  lemma {:induction false} MinExists(s: set<nat>)
    requires s != {}
    ensures exists m :: Least(s, m)
  {
    var x :| x in s;
    var rest := s - {x};
    if rest == {} {
      assert s == {x};
      assert Least(s, x);
    } else {
      MinExists(rest);
      var m :| Least(rest, m);
      assert s == rest + {x};
      assert Least(s, if x < m then x else m);
    }
  }

  function MinOf(s: set<nat>): (m: nat)
    requires s != {}
    ensures Least(s, m)
  {
    MinExists(s);
    var m :| Least(s, m);
    m
  }

  /** The members of a set, each once, in increasing order. */
  function Sorted(s: set<nat>): (r: seq<nat>)
    ensures Increasing(r)
    ensures forall x :: x in r <==> x in s
  {
    if s == {} then []
    else
      var m := MinOf(s);
      var rest := Sorted(s - {m});
      PrependIncreasing(m, rest);
      [m] + rest
  }

  /** An increasing sequence is determined by its members. */
  lemma {:induction false} IncreasingUnique(a: seq<nat>, b: seq<nat>)
    requires Increasing(a) && Increasing(b)
    requires forall x :: x in a <==> x in b
    ensures a == b
  {
    assert a != [] ==> a[0] in a;
    assert b != [] ==> b[0] in b;
    if a != [] {
      forall x ensures x in a[1..] <==> x in b[1..] {
        assert x in a[1..] <==> x in a && x != a[0];
        assert x in b[1..] <==> x in b && x != b[0];
      }
      IncreasingUnique(a[1..], b[1..]);
    }
  }

  /** Sorting the members of an increasing sequence gives it back. */
  lemma SortedOf(a: seq<nat>, s: set<nat>)
    requires Increasing(a) && forall x :: x in a <==> x in s
    ensures Sorted(s) == a
  {
    IncreasingUnique(Sorted(s), a);
  }

  // ---------------------------------------------------------------- sorting by a numeric key

  predicate SortedBy<T>(key: T -> nat, s: seq<T>) {
    forall i, j :: 0 <= i < j < |s| ==> key(s[i]) <= key(s[j])
  }

  predicate StrictlyBy<T>(key: T -> nat, s: seq<T>) {
    forall i, j :: 0 <= i < j < |s| ==> key(s[i]) < key(s[j])
  }

  function InsertBy<T>(key: T -> nat, x: T, s: seq<T>): seq<T> {
    if s == [] then [x] else if key(x) <= key(s[0]) then [x] + s else [s[0]] + InsertBy(key, x, s[1..])
  }

  /** A stable sort by key. */
  function SortBy<T>(key: T -> nat, s: seq<T>): seq<T> {
    if s == [] then [] else InsertBy(key, s[0], SortBy(key, s[1..]))
  }

  lemma {:induction false} InsertAdds<T>(key: T -> nat, x: T, s: seq<T>)
    ensures multiset(InsertBy(key, x, s)) == multiset(s) + multiset{x}
  {
    if s != [] && key(x) > key(s[0]) {
      InsertAdds(key, x, s[1..]);
      assert s == [s[0]] + s[1..];
    }
  }

  lemma InsertMember<T>(key: T -> nat, x: T, s: seq<T>, y: T)
    requires y in InsertBy(key, x, s)
    ensures y == x || y in s
  {
    InsertAdds(key, x, s);
    assert y in multiset(InsertBy(key, x, s));
  }

  lemma {:induction false} InsertSorts<T>(key: T -> nat, x: T, s: seq<T>)
    requires SortedBy(key, s)
    ensures SortedBy(key, InsertBy(key, x, s))
  {
    if s == [] {
    } else if key(x) <= key(s[0]) {
      forall y | y in s ensures key(x) <= key(y) {
        FirstLeast(key, s, y);
      }
      PrependSorted(key, x, s);
    } else {
      TailKeeps(key, s);
      InsertSorts(key, x, s[1..]);
      forall y | y in InsertBy(key, x, s[1..]) ensures key(s[0]) <= key(y) {
        InsertMember(key, x, s[1..], y);
        assert y in s[1..] ==> y in s;
        if y in s {
          FirstLeast(key, s, y);
        }
      }
      PrependSorted(key, s[0], InsertBy(key, x, s[1..]));
    }
  }

  lemma PrependSorted<T>(key: T -> nat, x: T, s: seq<T>)
    requires SortedBy(key, s) && forall y :: y in s ==> key(x) <= key(y)
    ensures SortedBy(key, [x] + s)
  {
    var all := [x] + s;
    forall i, j | 0 <= i < j < |all| ensures key(all[i]) <= key(all[j]) {
      assert all[j] == s[j - 1] && s[j - 1] in s;
      if i > 0 {
        assert all[i] == s[i - 1];
      }
    }
  }

  lemma {:induction false} SortBySorts<T>(key: T -> nat, s: seq<T>)
    ensures SortedBy(key, SortBy(key, s)) && multiset(SortBy(key, s)) == multiset(s)
  {
    if s != [] {
      SortBySorts(key, s[1..]);
      InsertSorts(key, s[0], SortBy(key, s[1..]));
      InsertAdds(key, s[0], SortBy(key, s[1..]));
      assert s == [s[0]] + s[1..];
    }
  }

  /** A sequence already in strictly increasing order is left alone. */
  lemma {:induction false} SortByFixed<T>(key: T -> nat, s: seq<T>)
    requires StrictlyBy(key, s)
    ensures SortBy(key, s) == s
  {
    if s != [] {
      SortByFixed(key, s[1..]);
      assert s == [s[0]] + s[1..];
      assert |s| > 1 ==> key(s[0]) < key(s[1]);
    }
  }

  lemma SameMembers<T>(a: seq<T>, b: seq<T>, x: T)
    requires multiset(a) == multiset(b) && x in a
    ensures x in b
  {
    assert x in multiset(b);
  }

  lemma FirstLeast<T>(key: T -> nat, s: seq<T>, x: T)
    requires SortedBy(key, s) && x in s
    ensures key(s[0]) <= key(x)
  {
    var i :| 0 <= i < |s| && s[i] == x;
    assert i > 0 ==> key(s[0]) <= key(s[i]);
  }

  lemma TailKeeps<T>(key: T -> nat, s: seq<T>)
    requires s != [] && SortedBy(key, s)
    ensures SortedBy(key, s[1..])
  {}

  lemma SameSequence<T>(a: seq<T>, b: seq<T>)
    requires a != [] && b != [] && a[0] == b[0] && a[1..] == b[1..]
    ensures a == b
  {
    assert a == [a[0]] + a[1..] && b == [b[0]] + b[1..];
  }

  // ---------------------------------------------------------------- distinct keys

  predicate DistinctBy<T>(key: T -> nat, s: seq<T>) {
    forall i, j :: 0 <= i < j < |s| ==> key(s[i]) != key(s[j])
  }

  lemma {:induction false} CountedOnce<T>(key: T -> nat, s: seq<T>, x: T)
    requires DistinctBy(key, s)
    ensures multiset(s)[x] <= 1
  {
    if s != [] {
      CountedOnce(key, s[1..], x);
      assert s == [s[0]] + s[1..];
      assert forall i :: 0 <= i < |s| - 1 ==> s[1..][i] == s[i + 1] && key(s[0]) != key(s[i + 1]);
      assert multiset(s) == multiset{s[0]} + multiset(s[1..]);
    }
  }

  lemma CountedTwice<T>(s: seq<T>, i: nat, j: nat)
    requires i < j < |s| && s[i] == s[j]
    ensures multiset(s)[s[i]] >= 2
  {
    assert s == s[..i + 1] + s[i + 1..];
    assert multiset(s) == multiset(s[..i + 1]) + multiset(s[i + 1..]);
    assert s[..i + 1][i] == s[i] && s[i + 1..][j - i - 1] == s[j];
  }

  /** Whether keys are distinct does not depend on the order. */
  lemma DistinctPermuted<T>(key: T -> nat, a: seq<T>, b: seq<T>)
    requires multiset(a) == multiset(b) && DistinctBy(key, a)
    ensures DistinctBy(key, b)
  {
    forall i, j | 0 <= i < j < |b| ensures key(b[i]) != key(b[j]) {
      SameMembers(b, a, b[i]);
      SameMembers(b, a, b[j]);
      if key(b[i]) == key(b[j]) {
        var k :| 0 <= k < |a| && a[k] == b[i];
        var l :| 0 <= l < |a| && a[l] == b[j];
        assert k == l;
        CountedTwice(b, i, j);
        CountedOnce(key, a, b[i]);
      }
    }
  }

  /** A strictly increasing sequence is determined by its members. */
  lemma {:induction false} StrictUnique<T>(key: T -> nat, a: seq<T>, b: seq<T>)
    requires StrictlyBy(key, a) && StrictlyBy(key, b) && forall x :: x in a <==> x in b
    ensures a == b
  {
    assert a != [] ==> a[0] in a;
    assert b != [] ==> b[0] in b;
    if a != [] {
      FirstLeast(key, a, b[0]);
      FirstLeast(key, b, a[0]);
      OnlyFirst(key, a, b[0]);
      forall x ensures x in a[1..] <==> x in b[1..] {
        TailMember(key, a, x);
        TailMember(key, b, x);
      }
      StrictUnique(key, a[1..], b[1..]);
      SameSequence(a, b);
    }
  }

  lemma OnlyFirst<T>(key: T -> nat, s: seq<T>, x: T)
    requires StrictlyBy(key, s) && x in s && key(x) <= key(s[0])
    ensures x == s[0]
  {
    var i :| 0 <= i < |s| && s[i] == x;
    assert forall j :: 0 < j < |s| ==> key(s[0]) < key(s[j]);
  }

  lemma TailMember<T>(key: T -> nat, s: seq<T>, x: T)
    requires s != [] && StrictlyBy(key, s)
    ensures x in s[1..] <==> x in s && x != s[0]
  {
    if x in s[1..] {
      var i :| 0 <= i < |s[1..]| && s[1..][i] == x;
      assert key(s[0]) < key(s[i + 1]);
    }
    if x in s && x != s[0] {
      var i :| 0 <= i < |s| && s[i] == x;
      assert s[1..][i - 1] == x;
    }
  }

  /** Sorting distinct keys gives a strictly increasing sequence of the same members. */
  lemma SortByStrict<T>(key: T -> nat, s: seq<T>)
    requires DistinctBy(key, s)
    ensures StrictlyBy(key, SortBy(key, s)) && forall x :: x in SortBy(key, s) <==> x in s
  {
    SortBySorts(key, s);
    DistinctPermuted(key, s, SortBy(key, s));
    forall x ensures x in SortBy(key, s) <==> x in s {
      if x in s {
        SameMembers(s, SortBy(key, s), x);
      }
      if x in SortBy(key, s) {
        SameMembers(SortBy(key, s), s, x);
      }
    }
  }
}
