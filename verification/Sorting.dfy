/** Sorting by a comparison, as the library sort promises it: a stable sorted permutation. */
module Sorting {
  import opened Texts

  /** The comparison is total and transitive. */
  ghost predicate Orders<T(!new)>(compare: (T, T) -> int) {
    && (forall a, b :: compare(a, b) < 0 <==> compare(b, a) > 0)
    && (forall a, b, c :: compare(a, b) <= 0 && compare(b, c) <= 0 ==> compare(a, c) <= 0)
  }

  /** Among the items, only equal values compare as equal. */
  ghost predicate Distinguishes<T(!new)>(compare: (T, T) -> int, items: seq<T>) {
    forall a, b :: a in items && b in items && compare(a, b) <= 0 && compare(b, a) <= 0 ==> a == b
  }

  ghost predicate Sorted<T>(compare: (T, T) -> int, items: seq<T>) {
    forall i, j :: 0 <= i < j < |items| ==> compare(items[i], items[j]) <= 0
  }

  function Insert<T>(compare: (T, T) -> int, items: seq<T>, x: T): seq<T> {
    if items == [] then [x]
    else if compare(x, items[0]) < 0 then [x] + items
    else [items[0]] + Insert(compare, items[1..], x)
  }

  function SortBy<T>(compare: (T, T) -> int, items: seq<T>): seq<T> {
    if items == [] then [] else Insert(compare, SortBy(compare, items[..|items| - 1]), items[|items| - 1])
  }

  lemma {:induction false} InsertPermutes<T>(compare: (T, T) -> int, items: seq<T>, x: T)
    ensures multiset(Insert(compare, items, x)) == multiset(items) + multiset{x}
  {
    if items != [] && compare(x, items[0]) >= 0 {
      InsertPermutes(compare, items[1..], x);
      assert items == [items[0]] + items[1..];
    }
  }

  lemma {:induction false} SortPermutes<T>(compare: (T, T) -> int, items: seq<T>)
    ensures multiset(SortBy(compare, items)) == multiset(items) && |SortBy(compare, items)| == |items|
  {
    if items != [] {
      SortPermutes(compare, items[..|items| - 1]);
      InsertPermutes(compare, SortBy(compare, items[..|items| - 1]), items[|items| - 1]);
      assert items == items[..|items| - 1] + [items[|items| - 1]];
    }
    assert |multiset(SortBy(compare, items))| == |multiset(items)|;
  }

  lemma MembersOfPermutation<T>(a: seq<T>, b: seq<T>, x: T)
    requires multiset(a) == multiset(b)
    ensures x in a <==> x in b
  {
    assert x in a <==> x in multiset(a);
  }

  lemma OccursTwice<T>(items: seq<T>, i: nat, j: nat)
    requires i < j < |items| && items[i] == items[j]
    ensures multiset(items)[items[i]] >= 2
  {
    assert items == items[..i] + [items[i]] + items[i + 1..j] + [items[j]] + items[j + 1..];
  }

  lemma OccursOnce<T>(items: seq<T>, i: nat)
    requires i < |items| && forall j :: 0 <= j < |items| && j != i ==> items[j] != items[i]
    ensures multiset(items)[items[i]] == 1
  {
    assert items == items[..i] + [items[i]] + items[i + 1..];
  }

  ghost predicate NoRepeats<T>(items: seq<T>) {
    forall i, j :: 0 <= i < j < |items| ==> items[i] != items[j]
  }

  /** Sequences without repeats that have the same members are permutations of each other. */
  lemma SameMembersPermute<T>(a: seq<T>, b: seq<T>)
    requires NoRepeats(a) && NoRepeats(b) && forall x :: x in a <==> x in b
    ensures multiset(a) == multiset(b)
  {
    forall x ensures multiset(a)[x] == multiset(b)[x] {
      if x in a {
        var i :| 0 <= i < |a| && a[i] == x;
        var j :| 0 <= j < |b| && b[j] == x;
        OccursOnce(a, i);
        OccursOnce(b, j);
      } else {
        assert x !in multiset(a) && x !in multiset(b);
      }
    }
  }

  lemma Flips<T(!new)>(compare: (T, T) -> int, a: T, b: T)
    requires Orders(compare)
    ensures compare(a, b) < 0 <==> compare(b, a) > 0
  {
  }

  lemma Chains<T(!new)>(compare: (T, T) -> int, a: T, b: T, c: T)
    requires Orders(compare) && compare(a, b) <= 0 && compare(b, c) <= 0
    ensures compare(a, c) <= 0
  {
  }

  lemma {:induction false} InsertSorts<T(!new)>(compare: (T, T) -> int, items: seq<T>, x: T)
    requires Orders(compare) && Sorted(compare, items)
    ensures Sorted(compare, Insert(compare, items, x))
  {
    hide Orders;
    var result := Insert(compare, items, x);
    if items == [] {
    } else if compare(x, items[0]) < 0 {
      forall j | 0 < j < |result| ensures compare(x, result[j]) <= 0 {
        assert result[j] == items[j - 1];
        if j > 1 {
          Chains(compare, x, items[0], items[j - 1]);
        }
      }
    } else {
      var rest := items[1..];
      InsertSorts(compare, rest, x);
      InsertPermutes(compare, rest, x);
      Flips(compare, x, items[0]);
      forall j | 0 < j < |result| ensures compare(items[0], result[j]) <= 0 {
        assert result[j] == Insert(compare, rest, x)[j - 1];
        assert result[j] in multiset(rest) + multiset{x};
        if result[j] != x {
          assert result[j] in rest;
        }
      }
    }
  }

  lemma {:induction false} SortSorts<T(!new)>(compare: (T, T) -> int, items: seq<T>)
    requires Orders(compare)
    ensures Sorted(compare, SortBy(compare, items))
  {
    if items != [] {
      SortSorts(compare, items[..|items| - 1]);
      InsertSorts(compare, SortBy(compare, items[..|items| - 1]), items[|items| - 1]);
    }
  }

  lemma SelfCompares<T(!new)>(compare: (T, T) -> int, a: T)
    requires Orders(compare)
    ensures compare(a, a) <= 0
  {
  }

  lemma HeadIsLeast<T(!new)>(compare: (T, T) -> int, a: seq<T>, x: T)
    requires Orders(compare) && Sorted(compare, a) && x in a
    ensures compare(a[0], x) <= 0
  {
    SelfCompares(compare, a[0]);
    hide Orders;
    var i :| 0 <= i < |a| && a[i] == x;
  }

  lemma TailsPermute<T>(a: seq<T>, b: seq<T>)
    requires a != [] && b != [] && a[0] == b[0] && multiset(a) == multiset(b)
    ensures multiset(a[1..]) == multiset(b[1..])
  {
    assert a == [a[0]] + a[1..] && b == [b[0]] + b[1..];
    assert multiset(a[1..]) == multiset(a) - multiset{a[0]};
    assert multiset(b[1..]) == multiset(b) - multiset{b[0]};
  }

  lemma DistinguishesAlike<T(!new)>(compare: (T, T) -> int, a: seq<T>, b: seq<T>)
    requires Distinguishes(compare, a) && forall x :: x in b ==> x in a
    ensures Distinguishes(compare, b)
  {
  }

  /** Under a comparison that tells their members apart, sorted permutations of each other are equal. */
  lemma {:induction false} SortedIsUnique<T(!new)>(compare: (T, T) -> int, a: seq<T>, b: seq<T>)
    requires Orders(compare) && Distinguishes(compare, a)
    requires Sorted(compare, a) && Sorted(compare, b) && multiset(a) == multiset(b)
    ensures a == b
  {
    hide Orders;
    assert |multiset(a)| == |multiset(b)|;
    if a != [] {
      MembersOfPermutation(a, b, a[0]);
      MembersOfPermutation(a, b, b[0]);
      HeadIsLeast(compare, a, b[0]);
      HeadIsLeast(compare, b, a[0]);
      assert a[0] in a;
      assert a[0] == b[0];
      TailsPermute(a, b);
      TailIsSorted(compare, a);
      TailIsSorted(compare, b);
      DistinguishesAlike(compare, a, a[1..]);
      hide Sorted, Distinguishes;
      SortedIsUnique(compare, a[1..], b[1..]);
      assert a == [a[0]] + a[1..] && b == [b[0]] + b[1..];
    }
  }

  lemma TailIsSorted<T>(compare: (T, T) -> int, a: seq<T>)
    requires a != [] && Sorted(compare, a)
    ensures Sorted(compare, a[1..])
  {
  }

  /** Sorting does not depend on the order of its input. */
  lemma SortIgnoresOrder<T(!new)>(compare: (T, T) -> int, a: seq<T>, b: seq<T>)
    requires Orders(compare) && Distinguishes(compare, a) && multiset(a) == multiset(b)
    ensures SortBy(compare, a) == SortBy(compare, b)
  {
    SortPermutes(compare, a);
    SortPermutes(compare, b);
    SortSorts(compare, a);
    SortSorts(compare, b);
    forall x | x in SortBy(compare, a) ensures x in a {
      MembersOfPermutation(SortBy(compare, a), a, x);
    }
    DistinguishesAlike(compare, a, SortBy(compare, a));
    SortedIsUnique(compare, SortBy(compare, a), SortBy(compare, b));
  }

  lemma TextsAreOrdered()
    ensures Orders(CompareText)
  {
    forall a: Text, b: Text ensures CompareText(a, b) < 0 <==> CompareText(b, a) > 0 {
      CompareIsAntisymmetric(a, b);
    }
    forall a: Text, b: Text, c: Text | CompareText(a, b) <= 0 && CompareText(b, c) <= 0 ensures CompareText(a, c) <= 0 {
      CompareIsTransitive(a, b, c);
    }
  }

  lemma TextsAreDistinguished(texts: seq<Text>)
    ensures Distinguishes(CompareText, texts)
  {
    forall a, b | a in texts && b in texts && CompareText(a, b) <= 0 && CompareText(b, a) <= 0 ensures a == b {
      CompareIsAntisymmetric(a, b);
    }
  }
}
