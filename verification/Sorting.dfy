/** Insertion sort as a stand-in for the library sort: same elements, ascending, idempotent. */
module Sorting {
  import opened Collections

  ghost predicate Total<T(!new)>(leq: (T, T) -> bool) {
    forall x, y :: leq(x, y) || leq(y, x)
  }

  ghost predicate Ascending<T>(s: seq<T>, leq: (T, T) -> bool) {
    forall i | 0 < i < |s| :: leq(s[i - 1], s[i])
  }

  function Insert<T>(x: T, s: seq<T>, leq: (T, T) -> bool): (r: seq<T>)
    ensures multiset(r) == multiset([x]) + multiset(s) && |r| == |s| + 1
  {
    if s == [] || leq(x, s[0]) then [x] + s
    else
      assert s == [s[0]] + s[1..];
      [s[0]] + Insert(x, s[1..], leq)
  }

  function Sort<T>(s: seq<T>, leq: (T, T) -> bool): (r: seq<T>)
    ensures multiset(r) == multiset(s) && |r| == |s|
  {
    if s == [] then []
    else
      assert s == [s[0]] + s[1..];
      Insert(s[0], Sort(s[1..], leq), leq)
  }

  lemma {:induction false} InsertAscends<T(!new)>(x: T, s: seq<T>, leq: (T, T) -> bool)
    requires Total(leq) && Ascending(s, leq)
    ensures Ascending(Insert(x, s, leq), leq)
    ensures Insert(x, s, leq)[0] == x || (s != [] && Insert(x, s, leq)[0] == s[0])
  {
    if s != [] && !leq(x, s[0]) {
      InsertAscends(x, s[1..], leq);
      var rest := Insert(x, s[1..], leq);
      assert Ascending([s[0]] + rest, leq);
    }
  }

  lemma {:induction false} SortAscends<T(!new)>(s: seq<T>, leq: (T, T) -> bool)
    requires Total(leq)
    ensures Ascending(Sort(s, leq), leq)
  {
    if s != [] {
      SortAscends(s[1..], leq);
      InsertAscends(s[0], Sort(s[1..], leq), leq);
    }
  }

  lemma {:induction false} AscendingIsSorted<T(!new)>(s: seq<T>, leq: (T, T) -> bool)
    requires Ascending(s, leq)
    ensures Sort(s, leq) == s
  {
    if s != [] {
      AscendingIsSorted(s[1..], leq);
      assert s == [s[0]] + s[1..];
      if 1 < |s| { assert leq(s[0], s[1]); }
    }
  }

  lemma SortTwice<T(!new)>(s: seq<T>, leq: (T, T) -> bool)
    requires Total(leq)
    ensures Sort(Sort(s, leq), leq) == Sort(s, leq)
  {
    SortAscends(s, leq);
    AscendingIsSorted(Sort(s, leq), leq);
  }

  lemma {:induction false} DistinctCounts<T>(s: seq<T>)
    ensures Distinct(s) <==> forall x | x in s :: multiset(s)[x] == 1
  {
    if s != [] {
      var t := s[1..];
      assert s == [s[0]] + t;
      assert multiset(s) == multiset([s[0]]) + multiset(t);
      DistinctCounts(t);
      if Distinct(s) {
        assert s[0] !in t;
        assert Distinct(t) by { assert forall i | 0 <= i < |t| :: t[i] == s[i + 1]; }
        assert forall x | x in s :: x == s[0] || x in t;
      }
      if forall x | x in s :: multiset(s)[x] == 1 {
        forall x | x in t
          ensures multiset(t)[x] == 1 && x != s[0]
        {
          assert x in s && s[0] in s && multiset(t)[x] >= 1;
        }
        assert Distinct(t);
        forall i, j | 0 <= i < j < |s|
          ensures s[i] != s[j]
        {
          assert s[j] == t[j - 1] && t[j - 1] in t;
          assert 0 < i ==> s[i] == t[i - 1];
        }
      }
    }
  }

  lemma SortKeepsDistinct<T>(a: seq<T>, b: seq<T>)
    requires multiset(a) == multiset(b) && Distinct(a)
    ensures Distinct(b)
  {
    DistinctCounts(a);
    DistinctCounts(b);
    SameMembers(a, b);
  }

  predicate IntLeq(a: int, b: int) {
    a <= b
  }

  predicate StringLeq(a: string, b: string) {
    a == "" || (b != "" && (a[0] < b[0] || (a[0] == b[0] && StringLeq(a[1..], b[1..]))))
  }

  lemma IntTotal()
    ensures Total(IntLeq)
  {
  }

  lemma {:induction false} StringTotalFor(a: string, b: string)
    ensures StringLeq(a, b) || StringLeq(b, a)
  {
    if a != "" && b != "" { StringTotalFor(a[1..], b[1..]); }
  }

  lemma StringTotal()
    ensures Total(StringLeq)
  {
    forall a, b
      ensures StringLeq(a, b) || StringLeq(b, a)
    {
      StringTotalFor(a, b);
    }
  }

  lemma {:induction false} StringAntisymmetric(a: string, b: string)
    requires StringLeq(a, b) && StringLeq(b, a)
    ensures a == b
  {
    if a != "" && b != "" {
      StringAntisymmetric(a[1..], b[1..]);
      assert a == [a[0]] + a[1..] && b == [b[0]] + b[1..];
    }
  }

  lemma {:induction false} StringTransitive(a: string, b: string, c: string)
    requires StringLeq(a, b) && StringLeq(b, c)
    ensures StringLeq(a, c)
  {
    if a != "" && a[0] == b[0] == c[0] { StringTransitive(a[1..], b[1..], c[1..]); }
  }

  /** A proper beginning of the other text, or smaller at the first difference. */
  ghost predicate Before(a: string, b: string) {
    a < b || exists k: nat :: DiffersAt(a, b, k)
  }

  ghost predicate DiffersAt(a: string, b: string, k: nat) {
    k < |a| && k < |b| && a[..k] == b[..k] && a[k] < b[k]
  }

  lemma DiffersLater(a: string, b: string, k: nat)
    requires a != "" && b != "" && a[0] == b[0]
    ensures !DiffersAt(a, b, 0)
    ensures DiffersAt(a, b, k + 1) <==> DiffersAt(a[1..], b[1..], k)
  {
    var s, t := a[1..], b[1..];
    if k < |s| && k < |t| {
      assert a[..k + 1] == [a[0]] + s[..k] && b[..k + 1] == [b[0]] + t[..k];
      assert s[..k] == a[..k + 1][1..] && t[..k] == b[..k + 1][1..];
    }
  }

  lemma DiffersFirst(a: string, b: string, k: nat)
    requires a != "" && b != "" && a[0] != b[0]
    ensures DiffersAt(a, b, k) <==> k == 0 && a[0] < b[0]
  {
    if 0 < k && k < |a| && k < |b| { assert a[..k][0] == a[0] && b[..k][0] == b[0]; }
  }

  lemma {:induction false} BeforeMeans(a: string, b: string)
    ensures Before(a, b) <==> StringLeq(a, b) && a != b
    decreases |a|
  {
    if a != "" && b != "" {
      if a[0] == b[0] {
        assert a == [a[0]] + a[1..] && b == [b[0]] + b[1..];
        assert a < b <==> a[1..] < b[1..];
        BeforeMeans(a[1..], b[1..]);
        forall k: nat
          ensures DiffersAt(a, b, k + 1) <==> DiffersAt(a[1..], b[1..], k)
          ensures !DiffersAt(a, b, 0)
        {
          DiffersLater(a, b, k);
        }
        SomeDifference(a, b);
      } else {
        forall k: nat
          ensures DiffersAt(a, b, k) <==> k == 0 && a[0] < b[0]
        {
          DiffersFirst(a, b, k);
        }
        assert !(a < b) && (DiffersAt(a, b, 0) <==> a[0] < b[0]);
      }
    }
  }

  lemma SomeDifference(a: string, b: string)
    requires a != "" && b != ""
    requires forall k: nat :: DiffersAt(a, b, k + 1) <==> DiffersAt(a[1..], b[1..], k)
    requires !DiffersAt(a, b, 0)
    ensures (exists k: nat :: DiffersAt(a, b, k)) <==> exists k: nat :: DiffersAt(a[1..], b[1..], k)
  {
    hide DiffersAt;
    if k: nat :| DiffersAt(a, b, k) {
      assert DiffersAt(a, b, k - 1 + 1);
      assert DiffersAt(a[1..], b[1..], k - 1);
    }
    if k: nat :| DiffersAt(a[1..], b[1..], k) { assert DiffersAt(a, b, k + 1); }
  }

  lemma {:induction false} FirstIsLeast(s: seq<string>, i: nat)
    requires Ascending(s, StringLeq) && i < |s|
    ensures StringLeq(s[0], s[i])
  {
    if i == 0 {
      StringTotalFor(s[0], s[0]);
    } else {
      FirstIsLeast(s, i - 1);
      StringTransitive(s[0], s[i - 1], s[i]);
    }
  }

  /** Equal contents are sorted into one list. */
  lemma {:induction false} AscendingIsUnique(a: seq<string>, b: seq<string>)
    requires Ascending(a, StringLeq) && Ascending(b, StringLeq) && multiset(a) == multiset(b)
    ensures a == b
  {
    if a == [] {
      assert |multiset(b)| == 0;
    } else {
      assert |multiset(a)| == |multiset(b)|;
      SameMembers(a, b);
      assert a[0] in b && b[0] in a;
      var i :| 0 <= i < |b| && b[i] == a[0];
      var j :| 0 <= j < |a| && a[j] == b[0];
      FirstIsLeast(b, i);
      FirstIsLeast(a, j);
      StringAntisymmetric(a[0], b[0]);
      TailContents(a);
      TailContents(b);
      TailAscends(a);
      TailAscends(b);
      AscendingIsUnique(a[1..], b[1..]);
    }
  }

  lemma TailContents<T>(s: seq<T>)
    requires s != []
    ensures multiset(s[1..]) == multiset(s) - multiset([s[0]]) && s == [s[0]] + s[1..]
  {
    assert s == [s[0]] + s[1..];
    assert multiset(s) == multiset([s[0]]) + multiset(s[1..]);
  }

  lemma TailAscends(s: seq<string>)
    requires s != [] && Ascending(s, StringLeq)
    ensures Ascending(s[1..], StringLeq)
  {
    assert forall i | 0 < i < |s[1..]| :: StringLeq(s[i], s[i + 1]) && s[1..][i - 1] == s[i] && s[1..][i] == s[i + 1];
  }

  /** The first occurrences only. */
  function Unique(s: seq<string>): seq<string> {
    if s == [] then []
    else
      var before := Unique(s[..|s| - 1]);
      if s[|s| - 1] in before then before else before + [s[|s| - 1]]
  }

  lemma {:induction false} UniqueKeepsMembers(s: seq<string>)
    ensures Distinct(Unique(s)) && forall x :: x in Unique(s) <==> x in s
  {
    if s != [] {
      UniqueKeepsMembers(s[..|s| - 1]);
      assert s == s[..|s| - 1] + [s[|s| - 1]];
    }
  }

  /** Distinct lists with the same members hold the same. */
  lemma SameDistinctContents(a: seq<string>, b: seq<string>)
    requires Distinct(a) && Distinct(b) && forall x :: x in a <==> x in b
    ensures multiset(a) == multiset(b)
  {
    DistinctCounts(a);
    DistinctCounts(b);
    forall x
      ensures multiset(a)[x] == multiset(b)[x]
    {
      assert x in a <==> x in multiset(a);
      assert x in b <==> x in multiset(b);
    }
  }

  /** `sorted(set(...))`: it depends on the members only. */
  function SortedSet(s: seq<string>): seq<string> {
    Sort(Unique(s), StringLeq)
  }

  lemma SortedSetHolds(s: seq<string>)
    ensures Ascending(SortedSet(s), StringLeq) && Distinct(SortedSet(s))
    ensures forall x :: x in SortedSet(s) <==> x in s
  {
    UniqueKeepsMembers(s);
    StringTotal();
    SortAscends(Unique(s), StringLeq);
    SortKeepsDistinct(Unique(s), SortedSet(s));
    SameMembers(Unique(s), SortedSet(s));
  }
}
