/**
 A stable insertion sort over any total preorder, and the fact that makes every stable sort interchangeable: a list is
 determined by being sorted and by the order it keeps inside each class of equal elements.
 */
module Sorting {

  ghost predicate TotalPreorder<T(!new)>(le: (T, T) -> bool) {
    && (forall x, y :: le(x, y) || le(y, x))
    && (forall x, y, z :: le(x, y) && le(y, z) ==> le(x, z))
  }

  ghost predicate Sorted<T>(le: (T, T) -> bool, xs: seq<T>) {
    forall i, j :: 0 <= i < j < |xs| ==> le(xs[i], xs[j])
  }

  predicate Same<T>(le: (T, T) -> bool, x: T, y: T) {
    le(x, y) && le(y, x)
  }

  /** The elements of xs that compare equal to c, in their order. */
  function Class<T>(le: (T, T) -> bool, c: T, xs: seq<T>): seq<T> {
    if xs == [] then []
    else (if Same(le, c, xs[0]) then [xs[0]] else []) + Class(le, c, xs[1..])
  }

  /** Sorted, and inside every class of equal elements the order of xs. */
  ghost predicate StableSortOf<T(!new)>(le: (T, T) -> bool, r: seq<T>, xs: seq<T>) {
    && Sorted(le, r)
    && multiset(r) == multiset(xs)
    && forall c :: Class(le, c, r) == Class(le, c, xs)
  }

  /** Puts x behind every element that is not greater. */
  function Insert<T>(le: (T, T) -> bool, xs: seq<T>, x: T): seq<T> {
    if xs == [] then [x]
    else if le(xs[|xs| - 1], x) then xs + [x]
    else Insert(le, xs[..|xs| - 1], x) + [xs[|xs| - 1]]
  }

  function StableSort<T>(le: (T, T) -> bool, xs: seq<T>): seq<T> {
    if xs == [] then [] else Insert(le, StableSort(le, xs[..|xs| - 1]), xs[|xs| - 1])
  }

  lemma {:induction false} ClassConcat<T>(le: (T, T) -> bool, c: T, xs: seq<T>, ys: seq<T>)
    ensures Class(le, c, xs + ys) == Class(le, c, xs) + Class(le, c, ys)
  {
    hide Same;
    if xs == [] {
      assert xs + ys == ys;
    } else {
      var same := if Same(le, c, xs[0]) then [xs[0]] else [];
      ClassConcat(le, c, xs[1..], ys);
      assert (xs + ys)[0] == xs[0] && (xs + ys)[1..] == xs[1..] + ys;
      assert same + (Class(le, c, xs[1..]) + Class(le, c, ys)) == same + Class(le, c, xs[1..]) + Class(le, c, ys);
    }
  }

  lemma {:induction false} InsertMembers<T>(le: (T, T) -> bool, xs: seq<T>, x: T)
    ensures multiset(Insert(le, xs, x)) == multiset(xs) + multiset{x}
  {
    if xs != [] && !le(xs[|xs| - 1], x) {
      InsertMembers(le, xs[..|xs| - 1], x);
      assert xs == xs[..|xs| - 1] + [xs[|xs| - 1]];
    }
  }

  lemma {:induction false} InsertSorted<T(!new)>(le: (T, T) -> bool, xs: seq<T>, x: T)
    requires TotalPreorder(le) && Sorted(le, xs)
    ensures Sorted(le, Insert(le, xs, x))
  {
    if xs != [] {
      var init, last := xs[..|xs| - 1], xs[|xs| - 1];
      if le(last, x) {
        assert forall i :: 0 <= i < |xs| ==> le(xs[i], last);
      } else {
        InsertSorted(le, init, x);
        InsertMembers(le, init, x);
        var r := Insert(le, init, x);
        forall i | 0 <= i < |r|
          ensures le(r[i], last)
        {
          assert r[i] in multiset(init) + multiset{x};
        }
      }
    }
  }

  lemma {:induction false} InsertClass<T(!new)>(le: (T, T) -> bool, xs: seq<T>, x: T, c: T)
    requires TotalPreorder(le)
    ensures Class(le, c, Insert(le, xs, x)) == Class(le, c, xs) + Class(le, c, [x])
  {
    ClassConcat(le, c, xs, [x]);
    if xs != [] && !le(xs[|xs| - 1], x) {
      var init, last := xs[..|xs| - 1], xs[|xs| - 1];
      assert xs == init + [last];
      InsertClass(le, init, x, c);
      ClassConcat(le, c, Insert(le, init, x), [last]);
      ClassConcat(le, c, init, [last]);
      assert !(Same(le, c, x) && Same(le, c, last));
    }
  }

  lemma {:induction false} StableSortIsStable<T(!new)>(le: (T, T) -> bool, xs: seq<T>)
    requires TotalPreorder(le)
    ensures StableSortOf(le, StableSort(le, xs), xs)
  {
    if xs != [] {
      var init, last := xs[..|xs| - 1], xs[|xs| - 1];
      assert xs == init + [last];
      StableSortIsStable(le, init);
      InsertSorted(le, StableSort(le, init), last);
      InsertMembers(le, StableSort(le, init), last);
      forall c
        ensures Class(le, c, StableSort(le, xs)) == Class(le, c, xs)
      {
        InsertClass(le, StableSort(le, init), last, c);
        ClassConcat(le, c, init, [last]);
      }
    }
  }

  lemma {:induction false} ClassMember<T>(le: (T, T) -> bool, c: T, xs: seq<T>)
    ensures forall y :: y in Class(le, c, xs) <==> y in xs && Same(le, c, y)
  {
    if xs != [] {
      ClassMember(le, c, xs[1..]);
      assert xs == [xs[0]] + xs[1..];
    }
  }

  lemma ClassNonempty<T(!new)>(le: (T, T) -> bool, xs: seq<T>)
    requires TotalPreorder(le)
    ensures xs != [] ==> Class(le, xs[0], xs) != [] && Class(le, xs[0], xs)[0] == xs[0]
  {
  }

  lemma ClassOfTail<T>(le: (T, T) -> bool, c: T, xs: seq<T>)
    requires xs != []
    ensures Same(le, c, xs[0]) ==> Class(le, c, xs) == [xs[0]] + Class(le, c, xs[1..])
    ensures Same(le, c, xs[0]) ==> Class(le, c, xs) != [] && Class(le, c, xs[1..]) == Class(le, c, xs)[1..]
    ensures !Same(le, c, xs[0]) ==> Class(le, c, xs[1..]) == Class(le, c, xs)
  {
  }

  /** Equal elements have the same class. */
  lemma {:induction false} SameClass<T(!new)>(le: (T, T) -> bool, c: T, d: T, xs: seq<T>)
    requires TotalPreorder(le) && Same(le, c, d)
    ensures Class(le, c, xs) == Class(le, d, xs)
  {
    if xs != [] {
      SameClass(le, c, d, xs[1..]);
      assert Same(le, c, xs[0]) <==> Same(le, d, xs[0]);
    }
  }

  /** Each first element is in the other list, so they are equal elements and head the same class. */
  lemma SameHead<T(!new)>(le: (T, T) -> bool, a: seq<T>, b: seq<T>)
    requires TotalPreorder(le) && Sorted(le, a) && Sorted(le, b) && a != [] && b != []
    requires Class(le, a[0], a) == Class(le, a[0], b) && Class(le, b[0], a) == Class(le, b[0], b)
    ensures a[0] == b[0]
  {
    hide Class;
    ClassNonempty(le, a);
    ClassNonempty(le, b);
    FirstIsLeast(le, a, b);
    FirstIsLeast(le, b, a);
    SameClass(le, a[0], b[0], a);
  }

  lemma FirstIsLeast<T(!new)>(le: (T, T) -> bool, a: seq<T>, b: seq<T>)
    requires TotalPreorder(le) && Sorted(le, b) && a != [] && b != []
    requires Class(le, a[0], b) != [] && Class(le, a[0], b)[0] == a[0]
    ensures le(b[0], a[0])
  {
    hide Class;
    ClassMember(le, a[0], b);
    assert a[0] in Class(le, a[0], b);
    assert le(b[0], b[0]);
  }

  /** Two sorted lists that agree on every class are the same list, so every stable sort gives the same result. */
  lemma {:induction false} SortedUnique<T(!new)>(le: (T, T) -> bool, a: seq<T>, b: seq<T>)
    requires TotalPreorder(le) && Sorted(le, a) && Sorted(le, b)
    requires forall c :: Class(le, c, a) == Class(le, c, b)
    ensures a == b
  {
    if a == [] {
      ClassNonempty(le, b);
    } else {
      ClassNonempty(le, a);
      EmptyClass(le, a[0], b);
      hide Class, Same, TotalPreorder;
      SameHead(le, a, b);
      forall c
        ensures Class(le, c, a[1..]) == Class(le, c, b[1..])
      {
        ClassOfTail(le, c, a);
        ClassOfTail(le, c, b);
      }
      SortedUnique(le, a[1..], b[1..]);
      assert a == [a[0]] + a[1..] && b == [b[0]] + b[1..];
    }
  }

  lemma EmptyClass<T>(le: (T, T) -> bool, c: T, xs: seq<T>)
    ensures xs == [] ==> Class(le, c, xs) == []
  {
  }
}
