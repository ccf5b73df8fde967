/** The specification of std::sort and of ORDER BY: the one sorted rearrangement of a
    sequence. Users supply the order; what they need back is that the result depends only
    on what is in the sequence, not on how it was enumerated. */
module Sorting {

  ghost predicate Sorted<T>(le: (T, T) -> bool, s: seq<T>) {
    forall i, j | 0 <= i < j < |s| :: le(s[i], s[j])
  }

  /** Nothing occurs twice. */
  predicate Distinct<T(==)>(s: seq<T>) {
    forall i, j | 0 <= i < j < |s| :: s[i] != s[j]
  }

  /** Rearranged, it stays so. */
  lemma DistinctEither<T>(a: seq<T>, b: seq<T>)
    requires multiset(a) == multiset(b) && Distinct(a)
    ensures Distinct(b)
  {
    forall i, j | 0 <= i < j < |b| ensures b[i] != b[j] {
      if b[i] == b[j] {
        OnceAtMost(a, b[i]);
        TwiceAtLeast(b, i, j);
      }
    }
  }

  lemma {:induction false} OnceAtMost<T>(a: seq<T>, x: T)
    requires Distinct(a)
    ensures multiset(a)[x] <= 1
  {
    if a != [] {
      OnceAtMost(a[1..], x);
      assert a == [a[0]] + a[1..];
      forall i | 0 <= i < |a[1..]| ensures a[1..][i] != a[0] {
        assert a[1..][i] == a[i + 1];
      }
      assert x !in a[1..] ==> multiset(a[1..])[x] == 0;
    }
  }

  lemma TwiceAtLeast<T>(b: seq<T>, i: nat, j: nat)
    requires i < j < |b| && b[i] == b[j]
    ensures multiset(b)[b[i]] >= 2
  {
    assert b == b[..i] + [b[i]] + b[i + 1..j] + [b[j]] + b[j + 1..];
  }

  /** `le` orders the elements of `m` totally. */
  ghost predicate TotalOn<T(!new)>(le: (T, T) -> bool, m: multiset<T>) {
    && Connected(le, m)
    && Transitive(le, m)
    && Antisymmetric(le, m)
  }

  ghost predicate Connected<T(!new)>(le: (T, T) -> bool, m: multiset<T>) {
    forall x, y {:trigger le(x, y)} | x in m && y in m :: le(x, y) || le(y, x)
  }

  ghost predicate Transitive<T(!new)>(le: (T, T) -> bool, m: multiset<T>) {
    forall x, y, z {:trigger le(x, y), le(y, z)} | x in m && y in m && z in m && le(x, y) && le(y, z) :: le(x, z)
  }

  ghost predicate Antisymmetric<T(!new)>(le: (T, T) -> bool, m: multiset<T>) {
    forall x, y {:trigger le(x, y), le(y, x)} | x in m && y in m && le(x, y) && le(y, x) :: x == y
  }

  function Insert<T>(le: (T, T) -> bool, x: T, s: seq<T>): (r: seq<T>)
    ensures multiset(r) == multiset{x} + multiset(s)
  {
    if s == [] then [x]
    else if le(x, s[0]) then [x] + s
    else
      assert s == [s[0]] + s[1..];
      [s[0]] + Insert(le, x, s[1..])
  }

  function Sort<T>(le: (T, T) -> bool, s: seq<T>): (r: seq<T>)
    ensures multiset(r) == multiset(s)
    ensures |r| == |s|
  {
    if s == [] then []
    else
      assert s == [s[0]] + s[1..];
      var r := Insert(le, s[0], Sort(le, s[1..]));
      assert |r| == |multiset(r)| && |s| == |multiset(s)|;
      r
  }

  ghost predicate Below<T>(le: (T, T) -> bool, x: T, s: seq<T>) {
    forall j | 0 <= j < |s| :: le(x, s[j])
  }

  lemma SortedCons<T>(le: (T, T) -> bool, x: T, s: seq<T>)
    requires Below(le, x, s) && Sorted(le, s)
    ensures Sorted(le, [x] + s)
  {
  }

  lemma BelowAll<T(!new)>(le: (T, T) -> bool, x: T, s: seq<T>)
    requires TotalOn(le, multiset{x} + multiset(s)) && Sorted(le, s)
    requires s != [] && le(x, s[0])
    ensures Below(le, x, s)
  {
    forall j | 0 <= j < |s| ensures le(x, s[j]) {
      assert s[0] in multiset(s) && s[j] in multiset(s);
      assert j > 0 ==> le(s[0], s[j]);
    }
  }

  lemma {:induction false} BelowInsert<T>(le: (T, T) -> bool, y: T, x: T, s: seq<T>)
    requires Below(le, y, s) && le(y, x)
    ensures Below(le, y, Insert(le, x, s))
  {
    if s != [] {
      BelowInsert(le, y, x, s[1..]);
    }
  }

  lemma {:induction false} InsertSorted<T(!new)>(le: (T, T) -> bool, x: T, s: seq<T>)
    requires TotalOn(le, multiset{x} + multiset(s))
    requires Sorted(le, s)
    ensures Sorted(le, Insert(le, x, s))
  {
    hide TotalOn, Sorted;
    if s == [] {
      SortedOne(le, x);
    } else if le(x, s[0]) {
      BelowAll(le, x, s);
      SortedCons(le, x, s);
    } else {
      OtherWay(le, x, s[0], multiset{x} + multiset(s));
      SortedTail(le, s);
      assert s == [s[0]] + s[1..];
      SubTotal(le, multiset{x} + multiset(s), multiset{x} + multiset(s[1..]));
      InsertSorted(le, x, s[1..]);
      HeadBelowTail(le, s);
      BelowInsert(le, s[0], x, s[1..]);
      SortedCons(le, s[0], Insert(le, x, s[1..]));
    }
  }

  lemma SortedOne<T>(le: (T, T) -> bool, x: T)
    ensures Sorted(le, [x])
  {
  }

  lemma OtherWay<T(!new)>(le: (T, T) -> bool, x: T, y: T, m: multiset<T>)
    requires TotalOn(le, m) && x in m && y in m && !le(x, y)
    ensures le(y, x)
  {
  }

  lemma HeadBelowTail<T>(le: (T, T) -> bool, s: seq<T>)
    requires Sorted(le, s) && s != []
    ensures Below(le, s[0], s[1..])
  {
  }

  lemma {:induction false} SortSorted<T(!new)>(le: (T, T) -> bool, s: seq<T>)
    requires TotalOn(le, multiset(s))
    ensures Sorted(le, Sort(le, s))
  {
    if s != [] {
      assert s == [s[0]] + s[1..];
      SortSorted(le, s[1..]);
      InsertSorted(le, s[0], Sort(le, s[1..]));
    }
  }

  /** Two sorted arrangements of the same elements are the same sequence. */
  lemma {:induction false} SortedUnique<T(!new)>(le: (T, T) -> bool, a: seq<T>, b: seq<T>)
    requires multiset(a) == multiset(b)
    requires TotalOn(le, multiset(a))
    requires Sorted(le, a) && Sorted(le, b)
    ensures a == b
  {
    hide TotalOn, Sorted;
    SameSize(a, b);
    if a != [] {
      FirstLeast(le, a, b);
      FirstLeast(le, b, a);
      TailContents(a);
      TailContents(b);
      SameHead(le, a[0], b[0], multiset(a));
      SubTotal(le, multiset(a), multiset(a[1..]));
      SortedTail(le, a);
      SortedTail(le, b);
      SortedUnique(le, a[1..], b[1..]);
      assert a == [a[0]] + a[1..] && b == [b[0]] + b[1..];
    }
  }

  lemma SameSize<T>(a: seq<T>, b: seq<T>)
    requires multiset(a) == multiset(b)
    ensures |a| == |b|
  {
    assert |a| == |multiset(a)| && |b| == |multiset(b)|;
  }

  lemma SortedTail<T>(le: (T, T) -> bool, a: seq<T>)
    requires Sorted(le, a) && a != []
    ensures Sorted(le, a[1..])
  {
  }

  lemma TailContents<T>(a: seq<T>)
    requires a != []
    ensures a[0] in multiset(a) && multiset(a[1..]) == multiset(a) - multiset{a[0]}
  {
    assert a == [a[0]] + a[1..];
  }

  lemma SameHead<T(!new)>(le: (T, T) -> bool, x: T, y: T, m: multiset<T>)
    requires TotalOn(le, m) && x in m && y in m && le(x, y) && le(y, x)
    ensures x == y
  {
  }

  lemma SubTotal<T(!new)>(le: (T, T) -> bool, m: multiset<T>, n: multiset<T>)
    requires TotalOn(le, m)
    requires n <= m
    ensures TotalOn(le, n)
  {
    assert forall x | x in n :: x in m;
  }

  lemma FirstLeast<T(!new)>(le: (T, T) -> bool, a: seq<T>, b: seq<T>)
    requires multiset(a) == multiset(b) && a != [] && b != []
    requires TotalOn(le, multiset(a)) && Sorted(le, a)
    ensures le(a[0], b[0])
  {
    assert b[0] in multiset(a);
    var j :| 0 <= j < |a| && a[j] == b[0];
    if j == 0 {
      assert le(a[0], a[0]);
    }
  }

  /** What sorting is for here: any two enumerations of the same things sort alike. */
  lemma SortCanonical<T(!new)>(le: (T, T) -> bool, a: seq<T>, b: seq<T>)
    requires TotalOn(le, multiset(a))
    requires multiset(a) == multiset(b)
    ensures Sort(le, a) == Sort(le, b)
  {
    SortSorted(le, a);
    SortSorted(le, b);
    SortedUnique(le, Sort(le, a), Sort(le, b));
  }
}
