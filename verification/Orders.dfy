/** Total orders, the ordering of strings, and sorting.
  *
  * Rust compares `str` values byte by byte in UTF-8, which orders strings by
  * code point; `char` below is a code point, so `StringLe` is that order.
  * A `BTreeMap` or `BTreeSet` is a Dafny `map` or `set` together with
  * `SortedSet`, the order in which it is iterated.
  */
module Orders {

  ghost predicate TotalPreorder<T(!new)>(le: (T, T) -> bool) {
    && (forall a, b :: le(a, b) || le(b, a))
    && (forall a, b, c :: le(a, b) && le(b, c) ==> le(a, c))
  }

  ghost predicate TotalOrder<T(!new)>(le: (T, T) -> bool) {
    && TotalPreorder(le)
    && (forall a, b :: le(a, b) && le(b, a) ==> a == b)
  }

  ghost predicate Sorted<T>(le: (T, T) -> bool, s: seq<T>) {
    forall i, j :: 0 <= i < j < |s| ==> le(s[i], s[j])
  }

  ghost predicate Distinct<T>(s: seq<T>) {
    forall i, j :: 0 <= i < j < |s| ==> s[i] != s[j]
  }

  lemma TakeMore<T>(s: seq<T>, k: nat)
    requires k < |s|
    ensures s[..k + 1] == s[..k] + [s[k]]
  {}

  lemma TakeAll<T>(s: seq<T>)
    ensures s[..|s|] == s
  {}

  // ----- strings -----

  predicate StringLe(a: string, b: string) {
    if a == "" then true
    else if b == "" then false
    else a[0] < b[0] || (a[0] == b[0] && StringLe(a[1..], b[1..]))
  }

  lemma {:induction false} StringLeReflexive(a: string)
    ensures StringLe(a, a)
  {
    if a != "" { StringLeReflexive(a[1..]); }
  }

  lemma {:induction false} StringLeTotal(a: string, b: string)
    ensures StringLe(a, b) || StringLe(b, a)
  {
    if a != "" && b != "" { StringLeTotal(a[1..], b[1..]); }
  }

  lemma {:induction false} StringLeAntisymmetric(a: string, b: string)
    requires StringLe(a, b) && StringLe(b, a)
    ensures a == b
  {
    if a != "" {
      StringLeAntisymmetric(a[1..], b[1..]);
      assert a == [a[0]] + a[1..] && b == [b[0]] + b[1..];
    }
  }

  lemma {:induction false} StringLeTransitive(a: string, b: string, c: string)
    requires StringLe(a, b) && StringLe(b, c)
    ensures StringLe(a, c)
  {
    if a != "" && a[0] == b[0] == c[0] { StringLeTransitive(a[1..], b[1..], c[1..]); }
  }

  lemma StringLeIsTotalOrder()
    ensures TotalOrder(StringLe)
  {
    forall a: string ensures StringLe(a, a) { StringLeReflexive(a); }
    forall a: string, b: string ensures StringLe(a, b) || StringLe(b, a) { StringLeTotal(a, b); }
    forall a: string, b: string | StringLe(a, b) && StringLe(b, a) ensures a == b {
      StringLeAntisymmetric(a, b);
    }
    forall a: string, b: string, c: string | StringLe(a, b) && StringLe(b, c) ensures StringLe(a, c) {
      StringLeTransitive(a, b, c);
    }
  }

  /** The texts agree before position `k`. */
  ghost predicate AgreeBefore(a: string, b: string, k: nat) {
    k <= |a| && k <= |b| && forall i :: 0 <= i < k ==> a[i] == b[i]
  }

  /** A text comes no later than another if it is its beginning, or has the smaller
    * character where they first differ.
    */
  lemma {:induction false} StringLeExactly(a: string, b: string)
    ensures StringLe(a, b) <==>
      a <= b || exists k: nat :: k < |a| && k < |b| && AgreeBefore(a, b, k) && a[k] < b[k]
  {
    if a != "" && b != "" {
      if a[0] == b[0] {
        StringLeExactly(a[1..], b[1..]);
        assert a == [a[0]] + a[1..] && b == [b[0]] + b[1..];
        if k: nat :| k < |a[1..]| && k < |b[1..]| && AgreeBefore(a[1..], b[1..], k) && a[1..][k] < b[1..][k] {
          forall i | 0 <= i < k + 1 ensures a[i] == b[i] {
            if i > 0 { assert a[1..][i - 1] == b[1..][i - 1]; }
          }
          assert AgreeBefore(a, b, k + 1);
        }
        if k: nat :| k < |a| && k < |b| && AgreeBefore(a, b, k) && a[k] < b[k] {
          forall i | 0 <= i < k - 1 ensures a[1..][i] == b[1..][i] {
            assert a[i + 1] == b[i + 1];
          }
          assert AgreeBefore(a[1..], b[1..], k - 1);
        }
      } else {
        assert AgreeBefore(a, b, 0);
        if k: nat :| k < |a| && k < |b| && AgreeBefore(a, b, k) && a[k] < b[k] {
          if k > 0 { assert false; }
        }
      }
    }
  }

  // ----- sorting -----

  function InsertSorted<T>(le: (T, T) -> bool, x: T, s: seq<T>): (r: seq<T>)
    ensures multiset(r) == multiset(s) + multiset{x}
  {
    if s == [] then [x]
    else if le(x, s[0]) then [x] + s
    else
      assert s == [s[0]] + s[1..];
      [s[0]] + InsertSorted(le, x, s[1..])
  }

  /** The stable sort of `s`. */
  function Sort<T>(le: (T, T) -> bool, s: seq<T>): (r: seq<T>)
    ensures multiset(r) == multiset(s)
    ensures |r| == |s|
  {
    if s == [] then []
    else
      assert s == [s[0]] + s[1..];
      var r := InsertSorted(le, s[0], Sort(le, s[1..]));
      assert |multiset(r)| == |multiset(s)|;
      r
  }

  lemma {:induction false} InsertKeepsSorted<T(!new)>(le: (T, T) -> bool, x: T, s: seq<T>)
    requires TotalPreorder(le) && Sorted(le, s)
    ensures Sorted(le, InsertSorted(le, x, s))
  {
    if s == [] {
    } else if le(x, s[0]) {
    } else {
      InsertKeepsSorted(le, x, s[1..]);
      var rest := InsertSorted(le, x, s[1..]);
      forall y | y in rest ensures le(s[0], y) {
        assert y in multiset(rest);
      }
    }
  }

  lemma {:induction false} SortIsSorted<T(!new)>(le: (T, T) -> bool, s: seq<T>)
    requires TotalPreorder(le)
    ensures Sorted(le, Sort(le, s))
  {
    if s != [] {
      SortIsSorted(le, s[1..]);
      InsertKeepsSorted(le, s[0], Sort(le, s[1..]));
    }
  }

  lemma SameElements<T>(a: seq<T>, b: seq<T>)
    requires multiset(a) == multiset(b)
    ensures forall x :: x in a <==> x in b
  {
    forall x ensures x in a <==> x in b {
      assert x in a <==> x in multiset(a);
      assert x in b <==> x in multiset(b);
    }
  }

  /** Where only equal elements are level, there is one way to sort. */
  lemma {:induction false} SortedIsUnique<T>(le: (T, T) -> bool, a: seq<T>, b: seq<T>)
    requires Sorted(le, a) && Sorted(le, b) && multiset(a) == multiset(b)
    requires forall x, y | x in a && y in a && le(x, y) && le(y, x) :: x == y
    ensures a == b
  {
    assert |a| == |multiset(a)| == |multiset(b)| == |b|;
    if a != [] {
      SameElements(a, b);
      FirstIsShared(le, a, b);
      DropFirst(a);
      DropFirst(b);
      SortedTail(le, a);
      SortedTail(le, b);
      SortedIsUnique(le, a[1..], b[1..]);
    }
  }

  lemma FirstIsShared<T>(le: (T, T) -> bool, a: seq<T>, b: seq<T>)
    requires a != [] && b != [] && Sorted(le, a) && Sorted(le, b) && forall x :: x in a <==> x in b
    requires forall x, y | x in a && y in a && le(x, y) && le(y, x) :: x == y
    ensures a[0] == b[0]
  {
    assert a[0] in a && b[0] in b;
    var i :| 0 <= i < |a| && a[i] == b[0];
    var j :| 0 <= j < |b| && b[j] == a[0];
    if i > 0 && j > 0 { assert le(a[0], a[i]) && le(b[0], b[j]); }
  }

  lemma SortedTail<T>(le: (T, T) -> bool, s: seq<T>)
    requires s != [] && Sorted(le, s)
    ensures Sorted(le, s[1..])
  {
    assert forall i :: 0 <= i < |s| - 1 ==> s[1..][i] == s[i + 1];
  }

  lemma DropFirst<T>(s: seq<T>)
    requires s != []
    ensures s == [s[0]] + s[1..]
    ensures multiset(s[1..]) == multiset(s) - multiset{s[0]}
  {
    assert s == [s[0]] + s[1..];
  }

  lemma DistinctSplit<T>(a: seq<T>)
    requires a != []
    ensures Distinct(a) <==> a[0] !in a[1..] && Distinct(a[1..])
  {
    assert forall i :: 0 <= i < |a| - 1 ==> a[1..][i] == a[i + 1];
    if a[0] !in a[1..] && Distinct(a[1..]) {
      forall i, j | 0 <= i < j < |a| ensures a[i] != a[j] {
        assert a[j] == a[1..][j - 1];
        if i > 0 { assert a[i] == a[1..][i - 1]; }
      }
    }
  }

  lemma {:induction false} DistinctMultiset<T>(a: seq<T>)
    ensures Distinct(a) <==> forall x :: multiset(a)[x] <= 1
  {
    if a != [] {
      assert a == [a[0]] + a[1..];
      DistinctMultiset(a[1..]);
      assert multiset(a) == multiset{a[0]} + multiset(a[1..]);
      DistinctSplit(a);
      if a[0] in a[1..] {
        assert multiset(a)[a[0]] >= 2;
      } else if !Distinct(a[1..]) {
        var x :| multiset(a[1..])[x] > 1;
        assert multiset(a)[x] > 1;
      }
    }
  }

  lemma DistinctPermutation<T>(a: seq<T>, b: seq<T>)
    requires multiset(a) == multiset(b)
    ensures Distinct(a) <==> Distinct(b)
  {
    DistinctMultiset(a);
    DistinctMultiset(b);
  }

  lemma DistinctConcat<T>(a: seq<T>, b: seq<T>)
    requires Distinct(a) && Distinct(b) && forall x :: x in a ==> x !in b
    ensures Distinct(a + b)
  {
    DistinctMultiset(a);
    DistinctMultiset(b);
    DistinctMultiset(a + b);
    forall x ensures multiset(a + b)[x] <= 1 {
      assert x in a <==> x in multiset(a);
      assert x in b <==> x in multiset(b);
    }
  }

  // ----- gathering -----

  /** What `f` yields for each element, in order. */
  function Gather<T, U>(f: T -> seq<U>, s: seq<T>): seq<U> {
    if s == [] then [] else f(s[0]) + Gather(f, s[1..])
  }

  lemma {:induction false} GatherConcat<T, U>(f: T -> seq<U>, a: seq<T>, b: seq<T>)
    ensures Gather(f, a + b) == Gather(f, a) + Gather(f, b)
  {
    if a == [] {
      assert a + b == b;
    } else {
      assert (a + b)[0] == a[0] && (a + b)[1..] == a[1..] + b;
      GatherConcat(f, a[1..], b);
    }
  }

  lemma {:induction false} GatherHas<T, U>(f: T -> seq<U>, s: seq<T>, y: U)
    ensures y in Gather(f, s) <==> exists x :: x in s && y in f(x)
  {
    if s != [] { GatherHas(f, s[1..], y); }
  }

  lemma WithoutMiddle<T>(s: seq<T>, i: nat)
    requires i < |s|
    ensures multiset(s[..i] + s[i + 1..]) == multiset(s) - multiset{s[i]}
  {
    assert s == s[..i] + ([s[i]] + s[i + 1..]);
  }

  lemma MiddleFirst<U>(l: seq<U>, m: seq<U>, r: seq<U>)
    ensures multiset(l + (m + r)) == multiset(m) + multiset(l + r)
  {}

  lemma GatherCons<T, U>(f: T -> seq<U>, x: T, s: seq<T>)
    ensures Gather(f, [x] + s) == f(x) + Gather(f, s)
  {
    assert ([x] + s)[1..] == s;
  }

  lemma GatherMiddle<T, U>(f: T -> seq<U>, s: seq<T>, i: nat)
    requires i < |s|
    ensures multiset(Gather(f, s)) == multiset(f(s[i])) + multiset(Gather(f, s[..i] + s[i + 1..]))
  {
    var before, after := s[..i], s[i + 1..];
    assert s == before + ([s[i]] + after);
    GatherConcat(f, before, [s[i]] + after);
    GatherCons(f, s[i], after);
    GatherConcat(f, before, after);
    MiddleFirst(Gather(f, before), f(s[i]), Gather(f, after));
  }

  /** Reordering what is gathered from reorders what is gathered. */
  lemma {:induction false} GatherPermutes<T, U>(f: T -> seq<U>, a: seq<T>, b: seq<T>)
    requires multiset(a) == multiset(b)
    ensures multiset(Gather(f, a)) == multiset(Gather(f, b))
  {
    if a == [] {
      assert |multiset(b)| == |b|;
    } else {
      SameElements(a, b);
      assert a[0] in b;
      var i :| 0 <= i < |b| && b[i] == a[0];
      GatherMiddle(f, b, i);
      WithoutMiddle(b, i);
      DropFirst(a);
      GatherPermutes(f, a[1..], b[..i] + b[i + 1..]);
    }
  }

  // ----- removing repetitions -----

  /** Drops elements equal to the one before them. */
  function Dedup<T(==)>(s: seq<T>): seq<T> {
    if |s| <= 1 then s
    else if s[0] == s[1] then Dedup(s[1..])
    else [s[0]] + Dedup(s[1..])
  }

  function SortDedup<T(==)>(le: (T, T) -> bool, s: seq<T>): seq<T> {
    Dedup(Sort(le, s))
  }

  lemma {:induction false} DedupMembers<T>(s: seq<T>)
    ensures forall x :: x in Dedup(s) <==> x in s
    ensures s != [] ==> Dedup(s) != [] && Dedup(s)[0] == s[0]
  {
    if |s| > 1 {
      assert s == [s[0]] + s[1..];
      DedupMembers(s[1..]);
    }
  }

  /** In a sorted sequence that starts with two different elements, the first does not recur. */
  lemma FirstIsLeast<T(!new)>(le: (T, T) -> bool, s: seq<T>, x: T)
    requires TotalOrder(le) && Sorted(le, s) && |s| > 1 && s[0] != s[1] && x in s[1..]
    ensures le(s[0], x) && x != s[0]
  {
    var k :| 1 <= k < |s| && s[k] == x;
    assert le(s[0], s[1]) && (k > 1 ==> le(s[1], s[k]));
  }

  lemma PrependSorted<T>(le: (T, T) -> bool, first: T, rest: seq<T>)
    requires Sorted(le, rest) && Distinct(rest) && forall x :: x in rest ==> le(first, x) && x != first
    ensures Sorted(le, [first] + rest) && Distinct([first] + rest)
  {
    var all := [first] + rest;
    forall i, j | 0 <= i < j < |all| ensures le(all[i], all[j]) && all[i] != all[j] {
      assert all[j] == rest[j - 1] && rest[j - 1] in rest;
      if i > 0 { assert all[i] == rest[i - 1]; }
    }
  }

  lemma {:induction false} DedupSorted<T(!new)>(le: (T, T) -> bool, s: seq<T>)
    requires TotalOrder(le) && Sorted(le, s)
    ensures Sorted(le, Dedup(s)) && Distinct(Dedup(s))
  {
    if |s| > 1 {
      SortedTail(le, s);
      DedupSorted(le, s[1..]);
      if s[0] != s[1] {
        DedupMembers(s[1..]);
        forall x | x in Dedup(s[1..]) ensures le(s[0], x) && x != s[0] {
          FirstIsLeast(le, s, x);
        }
        PrependSorted(le, s[0], Dedup(s[1..]));
      }
    }
  }

  lemma SortDedupCorrect<T(!new)>(le: (T, T) -> bool, s: seq<T>)
    requires TotalOrder(le)
    ensures Sorted(le, SortDedup(le, s)) && Distinct(SortDedup(le, s))
    ensures forall x :: x in SortDedup(le, s) <==> x in s
  {
    SortIsSorted(le, s);
    DedupSorted(le, Sort(le, s));
    DedupMembers(Sort(le, s));
    SameElements(Sort(le, s), s);
  }

  // ----- ordered sets -----

  predicate IsLeast<T(!new)>(le: (T, T) -> bool, s: set<T>, m: T) {
    m in s && forall y | y in s :: le(m, y)
  }

  lemma {:induction false} LeastExists<T(!new)>(le: (T, T) -> bool, s: set<T>)
    requires TotalOrder(le) && s != {}
    ensures exists m :: IsLeast(le, s, m)
    decreases s
  {
    var x :| x in s;
    if s == {x} {
      assert IsLeast(le, s, x);
    } else {
      LeastExists(le, s - {x});
      var least :| IsLeast(le, s - {x}, least);
      var m := if le(x, least) then x else least;
      forall y | y in s ensures le(m, y) {
        assert y == x || le(least, y);
      }
      assert IsLeast(le, s, m);
    }
  }

  /** The first key of a `BTreeSet`. */
  function Least<T(!new)>(le: (T, T) -> bool, s: set<T>): (m: T)
    requires TotalOrder(le) && s != {}
    ensures m in s && forall y :: y in s ==> le(m, y)
  {
    LeastExists(le, s);
    var m :| IsLeast(le, s, m);
    m
  }

  /** The keys of a `BTreeSet` in iteration order. */
  function SortedSet<T(!new)>(le: (T, T) -> bool, s: set<T>): (r: seq<T>)
    requires TotalOrder(le)
    ensures forall x :: x in r <==> x in s
    ensures Distinct(r)
    ensures |r| == |s|
    decreases s
  {
    if s == {} then []
    else
      var m := Least(le, s);
      var rest := SortedSet(le, s - {m});
      [m] + rest
  }

  lemma {:induction false} SortedSetIsSorted<T(!new)>(le: (T, T) -> bool, s: set<T>)
    requires TotalOrder(le)
    ensures Sorted(le, SortedSet(le, s))
    decreases s
  {
    if s != {} {
      var m := Least(le, s);
      SortedSetIsSorted(le, s - {m});
    }
  }

  // ----- finite sets -----

  lemma MoveElement<T>(from: set<T>, to: set<T>, x: T)
    requires x in from && from !! to
    ensures (from - {x}) + (to + {x}) == from + to
    ensures from - {x} !! to + {x}
  {}

  lemma SubtractMore<T>(s: set<T>, done: set<T>, x: T)
    ensures s - (done + {x}) == s - done - {x}
  {}

  lemma Complement<T>(s: set<T>, done: set<T>)
    requires done <= s
    ensures |s| == |done| + |s - done|
    ensures s - done == {} <==> s == done
  {
    assert s == done + (s - done);
  }
}
