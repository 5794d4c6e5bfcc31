/** Stable sorting by a key, as Python's `sorted` does it, and what makes its result unique. */
module Sorting {
  import opened Common

  /** `less` compares keys: it is a strict order in which not being ordered is itself an equivalence. */
  ghost predicate ByKey<T(!new)>(less: (T, T) -> bool) {
    && (forall a, b :: less(a, b) ==> !less(b, a))
    && (forall a, b, c :: less(a, c) ==> less(a, b) || less(b, c))
  }

  predicate Ascending<T>(s: seq<T>, less: (T, T) -> bool) {
    forall i, j :: 0 <= i < j < |s| ==> !less(s[j], s[i])
  }

  predicate Same<T>(less: (T, T) -> bool, a: T, b: T) {
    !less(a, b) && !less(b, a)
  }

  /** The elements with the key of `x`, in order. */
  function SameAs<T>(s: seq<T>, x: T, less: (T, T) -> bool): seq<T> {
    if s == [] then [] else (if Same(less, x, s[0]) then [s[0]] else []) + SameAs(s[1..], x, less)
  }

  function InsertAfter<T>(s: seq<T>, x: T, less: (T, T) -> bool): seq<T> {
    if s == [] then [x] else if less(x, s[0]) then [x] + s else [s[0]] + InsertAfter(s[1..], x, less)
  }

  function Sorted<T>(s: seq<T>, less: (T, T) -> bool): (r: seq<T>)
    ensures |r| == |s|
  {
    if s == [] then [] else
      var r := InsertAfter(Sorted(s[..|s| - 1], less), s[|s| - 1], less);
      InsertLength(Sorted(s[..|s| - 1], less), s[|s| - 1], less);
      r
  }

  lemma {:induction false} InsertLength<T>(s: seq<T>, x: T, less: (T, T) -> bool)
    ensures |InsertAfter(s, x, less)| == |s| + 1
  {
    if s != [] && !less(x, s[0]) {
      InsertLength(s[1..], x, less);
    }
  }

  lemma {:induction false} InsertMembers<T>(s: seq<T>, x: T, less: (T, T) -> bool)
    ensures multiset(InsertAfter(s, x, less)) == multiset(s) + multiset{x}
  {
    if s == [] {
    } else {
      assert s == [s[0]] + s[1..];
      if !less(x, s[0]) {
        InsertMembers(s[1..], x, less);
      }
    }
  }

  lemma {:induction false} InsertAscending<T(!new)>(s: seq<T>, x: T, less: (T, T) -> bool)
    requires ByKey(less) && Ascending(s, less)
    ensures Ascending(InsertAfter(s, x, less), less)
  {
    if s != [] && !less(x, s[0]) {
      var rest := InsertAfter(s[1..], x, less);
      InsertAscending(s[1..], x, less);
      InsertMembers(s[1..], x, less);
      forall j | 0 <= j < |rest| ensures !less(rest[j], s[0]) {
        assert rest[j] in multiset(rest);
        assert rest[j] == x || rest[j] in s[1..];
      }
    }
  }

  lemma {:induction false} SortedSorts<T(!new)>(s: seq<T>, less: (T, T) -> bool)
    requires ByKey(less)
    ensures Ascending(Sorted(s, less), less) && multiset(Sorted(s, less)) == multiset(s)
  {
    if s == [] {
    } else {
      var n := |s| - 1;
      SortedSorts(s[..n], less);
      InsertAscending(Sorted(s[..n], less), s[n], less);
      InsertMembers(Sorted(s[..n], less), s[n], less);
      assert s == s[..n] + [s[n]];
    }
  }

  // ----- stability -----

  lemma {:induction false} SameAsCons<T>(x: T, s: seq<T>, c: T, less: (T, T) -> bool)
    ensures SameAs([x] + s, c, less) == (if Same(less, c, x) then [x] else []) + SameAs(s, c, less)
  {
    assert ([x] + s)[1..] == s;
  }

  lemma {:induction false} SameAsConcat<T>(a: seq<T>, b: seq<T>, x: T, less: (T, T) -> bool)
    ensures SameAs(a + b, x, less) == SameAs(a, x, less) + SameAs(b, x, less)
  {
    if a == [] {
      assert a + b == b;
    } else {
      var head, rest := a[0], a[1..];
      SameAsConcat(rest, b, x, less);
      SameAsCons(head, rest + b, x, less);
      SameAsCons(head, rest, x, less);
      assert [head] + rest == a && [head] + (rest + b) == a + b;
      Associative(if Same(less, x, head) then [head] else [], SameAs(rest, x, less), SameAs(b, x, less));
    }
  }

  lemma {:induction false} NoneSame<T(!new)>(s: seq<T>, c: T, x: T, less: (T, T) -> bool)
    requires ByKey(less) && Same(less, c, x)
    requires forall y :: y in s ==> less(x, y)
    ensures SameAs(s, c, less) == []
  {
    if s == [] {
    } else {
      assert s[0] in s;
      NoneSame(s[1..], c, x, less);
    }
  }

  lemma {:induction false} NoneSameAfter<T(!new)>(s: seq<T>, x: T, less: (T, T) -> bool, c: T)
    requires ByKey(less) && Ascending(s, less) && s != [] && less(x, s[0]) && Same(less, c, x)
    ensures SameAs(s, c, less) == []
  {
    forall y | y in s ensures less(x, y) {
      var i :| 0 <= i < |s| && s[i] == y;
      assert i > 0 ==> !less(s[i], s[0]);
    }
    NoneSame(s, c, x, less);
  }

  lemma {:induction false} InsertStable<T(!new)>(s: seq<T>, x: T, less: (T, T) -> bool, c: T)
    requires ByKey(less) && Ascending(s, less)
    ensures SameAs(InsertAfter(s, x, less), c, less) == SameAs(s, c, less) + SameAs([x], c, less)
  {
    if s == [] {
      assert InsertAfter(s, x, less) == s + [x];
    } else if less(x, s[0]) {
      StableInFront(s, x, less, c);
    } else {
      InsertStable(s[1..], x, less, c);
      StableFurtherOn(s, x, less, c);
    }
  }

  lemma {:induction false} StableInFront<T(!new)>(s: seq<T>, x: T, less: (T, T) -> bool, c: T)
    requires ByKey(less) && Ascending(s, less) && s != [] && less(x, s[0])
    ensures SameAs([x] + s, c, less) == SameAs(s, c, less) + SameAs([x], c, less)
  {
    SameAsCons(x, s, c, less);
    if Same(less, c, x) {
      NoneSameAfter(s, x, less, c);
    }
  }

  lemma {:induction false} StableFurtherOn<T(!new)>(s: seq<T>, x: T, less: (T, T) -> bool, c: T)
    requires s != []
    requires SameAs(InsertAfter(s[1..], x, less), c, less) == SameAs(s[1..], c, less) + SameAs([x], c, less)
    ensures SameAs([s[0]] + InsertAfter(s[1..], x, less), c, less) == SameAs(s, c, less) + SameAs([x], c, less)
  {
    var rest := s[1..];
    SameAsCons(s[0], InsertAfter(rest, x, less), c, less);
    SameAsCons(s[0], rest, c, less);
    assert [s[0]] + rest == s;
    Associative(if Same(less, c, s[0]) then [s[0]] else [], SameAs(rest, c, less), SameAs([x], c, less));
  }

  /** Sorting keeps the order of elements with equal keys. */
  lemma {:induction false} SortedStable<T(!new)>(s: seq<T>, less: (T, T) -> bool, c: T)
    requires ByKey(less)
    ensures SameAs(Sorted(s, less), c, less) == SameAs(s, c, less)
  {
    if s == [] {
    } else {
      var n := |s| - 1;
      SortedStable(s[..n], less, c);
      SortedSorts(s[..n], less);
      InsertStable(Sorted(s[..n], less), s[n], less, c);
      SameAsConcat(s[..n], [s[n]], c, less);
      assert s == s[..n] + [s[n]];
    }
  }

  lemma {:induction false} SameAsMember<T>(s: seq<T>, x: T, c: T, less: (T, T) -> bool)
    ensures x in SameAs(s, c, less) <==> x in s && Same(less, c, x)
  {
    if s == [] {
    } else {
      assert x in s <==> x == s[0] || x in s[1..];
      SameAsMember(s[1..], x, c, less);
    }
  }

  lemma {:induction false} TailsAgree<T>(a: seq<T>, b: seq<T>, c: T, less: (T, T) -> bool)
    requires a != [] && b != [] && a[0] == b[0] && SameAs(a, c, less) == SameAs(b, c, less)
    ensures SameAs(a[1..], c, less) == SameAs(b[1..], c, less)
  {
    var head := if Same(less, c, a[0]) then [a[0]] else [];
    assert head + SameAs(a[1..], c, less) == head + SameAs(b[1..], c, less);
    assert SameAs(a[1..], c, less) == SameAs(a, c, less)[|head|..];
    assert SameAs(b[1..], c, less) == SameAs(b, c, less)[|head|..];
  }

  lemma {:induction false} OwnClass<T(!new)>(s: seq<T>, less: (T, T) -> bool)
    requires ByKey(less)
    ensures s != [] ==> SameAs(s, s[0], less) != []
  {
  }

  /** Two lists in order that agree on every key are the same list. */
  lemma {:induction false} AscendingUnique<T(!new)>(a: seq<T>, b: seq<T>, less: (T, T) -> bool)
    requires ByKey(less) && Ascending(a, less) && Ascending(b, less)
    requires forall c :: SameAs(a, c, less) == SameAs(b, c, less)
    ensures a == b
  {
    BothEmpty(a, b, less);
    if a == [] {
    } else {
      HeadsAgree(a, b, less);
      forall c ensures SameAs(a[1..], c, less) == SameAs(b[1..], c, less) {
        TailsAgree(a, b, c, less);
      }
      AscendingUnique(a[1..], b[1..], less);
      assert a == [a[0]] + a[1..] && b == [b[0]] + b[1..];
    }
  }

  lemma {:induction false} BothEmpty<T(!new)>(a: seq<T>, b: seq<T>, less: (T, T) -> bool)
    requires ByKey(less)
    requires forall c :: SameAs(a, c, less) == SameAs(b, c, less)
    ensures a == [] <==> b == []
  {
    OwnClass(a, less);
    OwnClass(b, less);
    assert a != [] ==> SameAs(a, a[0], less) == SameAs(b, a[0], less);
    assert b != [] ==> SameAs(a, b[0], less) == SameAs(b, b[0], less);
  }

  lemma {:induction false} HeadsAgree<T(!new)>(a: seq<T>, b: seq<T>, less: (T, T) -> bool)
    requires ByKey(less) && Ascending(a, less) && Ascending(b, less) && a != [] && b != []
    requires forall c :: SameAs(a, c, less) == SameAs(b, c, less)
    ensures a[0] == b[0]
  {
    HeadInOther(a, b, less);
    HeadInOther(b, a, less);
    assert SameAs(a, a[0], less) == SameAs(b, a[0], less) && Same(less, a[0], b[0]);
    assert SameAs(a, a[0], less)[0] == a[0] && SameAs(b, a[0], less)[0] == b[0];
  }

  lemma {:induction false} HeadInOther<T(!new)>(a: seq<T>, b: seq<T>, less: (T, T) -> bool)
    requires ByKey(less) && Ascending(b, less) && a != [] && b != []
    requires forall c :: SameAs(a, c, less) == SameAs(b, c, less)
    ensures !less(a[0], b[0])
  {
    assert SameAs(a, a[0], less) == SameAs(b, a[0], less);
    SameAsMember(a, a[0], a[0], less);
    SameAsMember(b, a[0], a[0], less);
    var i :| 0 <= i < |b| && b[i] == a[0];
  }

  /** When the key identifies the element, its class is determined by what the list contains, not by the order. */
  lemma {:induction false} SameAsRepeats<T>(s: seq<T>, x: T, c: T, less: (T, T) -> bool)
    requires Same(less, c, x) && forall y :: y in s && Same(less, c, y) ==> y == x
    ensures SameAs(s, c, less) == seq(multiset(s)[x], _ => x)
  {
    if s == [] {
    } else {
      assert s == [s[0]] + s[1..];
      assert s[0] in s;
      SameAsRepeats(s[1..], x, c, less);
    }
  }

  ghost predicate KeysIdentify<T>(s: seq<T>, less: (T, T) -> bool) {
    forall x, y :: x in s && y in s && Same(less, x, y) ==> x == y
  }

  lemma {:induction false} SameClass<T(!new)>(a: seq<T>, b: seq<T>, less: (T, T) -> bool, c: T)
    requires ByKey(less) && multiset(a) == multiset(b) && KeysIdentify(a, less)
    ensures SameAs(a, c, less) == SameAs(b, c, less)
  {
    assert forall y :: y in a <==> y in multiset(a);
    assert forall y :: y in b <==> y in multiset(b);
    if x :| x in a && Same(less, c, x) {
      SameAsRepeats(a, x, c, less);
      SameAsRepeats(b, x, c, less);
    } else {
      NothingSame(a, c, less);
      NothingSame(b, c, less);
    }
  }

  /** Sorting a permutation gives the same list, when the key identifies the element. */
  lemma {:induction false} SortedPermutation<T(!new)>(a: seq<T>, b: seq<T>, less: (T, T) -> bool)
    requires ByKey(less) && multiset(a) == multiset(b) && KeysIdentify(a, less)
    ensures Sorted(a, less) == Sorted(b, less)
  {
    forall c ensures SameAs(Sorted(a, less), c, less) == SameAs(Sorted(b, less), c, less) {
      SortedStable(a, less, c);
      SortedStable(b, less, c);
      SameClass(a, b, less, c);
    }
    SortedSorts(a, less);
    SortedSorts(b, less);
    AscendingUnique(Sorted(a, less), Sorted(b, less), less);
  }

  lemma {:induction false} NothingSame<T>(s: seq<T>, c: T, less: (T, T) -> bool)
    requires forall x :: x in s ==> !Same(less, c, x)
    ensures SameAs(s, c, less) == []
  {
    if s == [] {
    } else {
      assert s[0] in s;
      NothingSame(s[1..], c, less);
    }
  }
}
