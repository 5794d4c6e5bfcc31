/** The order of texts, character by character, and sorting without repeats. */
module Ordering {
  predicate Less(a: string, b: string) {
    b != [] && (a == [] || a[0] < b[0] || (a[0] == b[0] && Less(a[1..], b[1..])))
  }

  lemma {:induction false} LessTotal(a: string, b: string)
    ensures Less(a, b) || Less(b, a) || a == b
    ensures !(Less(a, b) && Less(b, a))
    ensures !Less(a, a)
  {
    if a != [] && b != [] && a[0] == b[0] {
      LessTotal(a[1..], b[1..]);
      assert a == [a[0]] + a[1..] && b == [b[0]] + b[1..];
    } else if a != [] {
      LessTotal(a[1..], []);
    }
    if a != [] {
      LessTotal(a[1..], a[1..]);
    }
  }

  lemma {:induction false} LessTransitive(a: string, b: string, c: string)
    requires Less(a, b) && Less(b, c)
    ensures Less(a, c)
  {
    if a != [] && a[0] == b[0] && b[0] == c[0] {
      LessTransitive(a[1..], b[1..], c[1..]);
    }
  }

  predicate Increasing(s: seq<string>) {
    forall i, j :: 0 <= i < j < |s| ==> Less(s[i], s[j])
  }

  function Insert(s: seq<string>, x: string): seq<string> {
    if s == [] then [x]
    else if s[0] == x then s
    else if Less(s[0], x) then [s[0]] + Insert(s[1..], x)
    else [x] + s
  }

  /** Python's `sorted(set(s))`. */
  function SortedUnique(s: seq<string>): seq<string> {
    if s == [] then [] else Insert(SortedUnique(s[..|s| - 1]), s[|s| - 1])
  }

  lemma {:induction false} InsertSorts(s: seq<string>, x: string)
    requires Increasing(s)
    ensures Increasing(Insert(s, x))
    ensures forall y :: y in Insert(s, x) <==> y in s || y == x
  {
    if s == [] {
    } else {
      LessTotal(s[0], x);
      var rest := Insert(s[1..], x);
      InsertSorts(s[1..], x);
      assert forall y :: y in s <==> y == s[0] || y in s[1..];
      if Less(s[0], x) {
        assert forall i :: 0 < i < |s| ==> Less(s[0], s[i]);
        forall i | 0 <= i < |rest| ensures Less(s[0], rest[i]) {
          assert rest[i] in rest;
        }
      } else if s[0] != x {
        forall i | 0 < i < |s| ensures Less(x, s[i]) {
          LessTransitive(x, s[0], s[i]);
        }
      }
    }
  }

  /** The result is in order, without repeats, and has exactly the given elements. */
  lemma {:induction false} SortedUniqueSorts(s: seq<string>)
    ensures Increasing(SortedUnique(s))
    ensures forall x :: x in SortedUnique(s) <==> x in s
  {
    if s == [] {
    } else {
      var n := |s| - 1;
      SortedUniqueSorts(s[..n]);
      InsertSorts(SortedUnique(s[..n]), s[n]);
      assert forall x :: x in s <==> x in s[..n] || x == s[n];
    }
  }
}
