/**
 Lexicographic string order and sorting. Library sorts are modelled by insertion; the
 uniqueness lemma shows that under a strict total order every correct sort gives the same
 result, whatever order its input came in.
 */
module Ordering {

  datatype Option<+T> = None | Some(value: T)

  function Min(a: int, b: int): int { if a < b then a else b }

  function Max(a: int, b: int): int { if a < b then b else a }

  predicate StringLess(a: string, b: string) {
    b != [] && (a == [] || a[0] < b[0] || (a[0] == b[0] && StringLess(a[1..], b[1..])))
  }

  ghost predicate StrictTotal<T(!new)>(less: (T, T) -> bool) {
    && (forall a :: !less(a, a))
    && (forall a, b, c :: less(a, b) && less(b, c) ==> less(a, c))
    && (forall a, b :: a != b ==> less(a, b) || less(b, a))
  }

  lemma {:induction false} StringLessIrreflexive(a: string)
    ensures !StringLess(a, a)
  {
    if a == [] {
    } else {
      StringLessIrreflexive(a[1..]);
    }
  }

  lemma {:induction false} StringLessTransitive(a: string, b: string, c: string)
    requires StringLess(a, b) && StringLess(b, c)
    ensures StringLess(a, c)
  {
    if a != [] && a[0] == b[0] && b[0] == c[0] {
      StringLessTransitive(a[1..], b[1..], c[1..]);
    }
  }

  lemma {:induction false} StringLessConnected(a: string, b: string)
    requires a != b
    ensures StringLess(a, b) || StringLess(b, a)
  {
    if a != [] && b != [] && a[0] == b[0] {
      assert a == [a[0]] + a[1..] && b == [b[0]] + b[1..];
      StringLessConnected(a[1..], b[1..]);
    }
  }

  /** The order is the dictionary's: after a common part, the smaller character or the end of
      the text comes first. */
  lemma {:induction false} StringLessIff(a: string, b: string)
    ensures StringLess(a, b) <==>
      exists k :: 0 <= k <= |a| && k < |b| && a[..k] == b[..k] && (k == |a| || a[k] < b[k])
  {
    if b == [] {
    } else if a == [] {
      assert a[..0] == b[..0];
    } else if a[0] == b[0] {
      StringLessIff(a[1..], b[1..]);
      if StringLess(a, b) {
        var k :| 0 <= k <= |a[1..]| && k < |b[1..]| && a[1..][..k] == b[1..][..k] && (k == |a[1..]| || a[1..][k] < b[1..][k]);
        assert a[..k + 1] == [a[0]] + a[1..][..k] && b[..k + 1] == [b[0]] + b[1..][..k];
      }
      if k :| 0 <= k <= |a| && k < |b| && a[..k] == b[..k] && (k == |a| || a[k] < b[k]) {
        assert k > 0;
        assert a[1..][..k - 1] == a[..k][1..] && b[1..][..k - 1] == b[..k][1..];
      }
    } else {
      assert a[..0] == b[..0];
      forall k | 0 < k <= |a| && k < |b| ensures a[..k] != b[..k] {
        assert a[..k][0] == a[0] && b[..k][0] == b[0];
      }
    }
  }

  lemma StringLessIsStrictTotal()
    ensures StrictTotal(StringLess)
  {
    forall a ensures !StringLess(a, a) { StringLessIrreflexive(a); }
    forall a, b, c | StringLess(a, b) && StringLess(b, c) ensures StringLess(a, c) {
      StringLessTransitive(a, b, c);
    }
    forall a, b | a != b ensures StringLess(a, b) || StringLess(b, a) { StringLessConnected(a, b); }
  }

  // ---------------------------------------------------------------- sorting

  ghost predicate Sorted<T(!new)>(s: seq<T>, less: (T, T) -> bool) {
    forall i, j :: 0 <= i < j < |s| ==> !less(s[j], s[i])
  }

  function Insert<T>(x: T, s: seq<T>, less: (T, T) -> bool): seq<T> {
    if s == [] || less(x, s[0]) then [x] + s else [s[0]] + Insert(x, s[1..], less)
  }

  function Sort<T>(s: seq<T>, less: (T, T) -> bool): seq<T> {
    if s == [] then [] else Insert(s[0], Sort(s[1..], less), less)
  }

  lemma {:induction false} InsertContents<T(!new)>(x: T, s: seq<T>, less: (T, T) -> bool)
    ensures multiset(Insert(x, s, less)) == multiset(s) + multiset{x}
  {
    if s == [] {
    } else {
      assert s == [s[0]] + s[1..];
      InsertContents(x, s[1..], less);
    }
  }

  /** Prepending something no element precedes keeps a list sorted. */
  lemma SortedCons<T(!new)>(x: T, s: seq<T>, less: (T, T) -> bool)
    requires Sorted(s, less) && forall y :: y in s ==> !less(y, x)
    ensures Sorted([x] + s, less)
  {
    var r := [x] + s;
    forall i, j | 0 <= i < j < |r| ensures !less(r[j], r[i]) {
      assert r[j] == s[j - 1];
    }
  }

  lemma {:induction false} InsertOk<T(!new)>(x: T, s: seq<T>, less: (T, T) -> bool)
    requires StrictTotal(less) && Sorted(s, less)
    ensures Sorted(Insert(x, s, less), less)
  {
    if s == [] {
    } else {
      if less(x, s[0]) {
        SortedCons(x, s, less);
      } else {
        var rest := Insert(x, s[1..], less);
        InsertOk(x, s[1..], less);
        InsertContents(x, s[1..], less);
        forall y | y in rest ensures !less(y, s[0]) {
          assert y in multiset(rest);
          assert y == x || y in s[1..];
        }
        SortedCons(s[0], rest, less);
      }
    }
  }

  lemma {:induction false} SortOk<T(!new)>(s: seq<T>, less: (T, T) -> bool)
    requires StrictTotal(less)
    ensures Sorted(Sort(s, less), less)
    ensures multiset(Sort(s, less)) == multiset(s)
  {
    if s == [] {
    } else {
      assert s == [s[0]] + s[1..];
      SortOk(s[1..], less);
      InsertOk(s[0], Sort(s[1..], less), less);
      InsertContents(s[0], Sort(s[1..], less), less);
    }
  }

  lemma SameHead<T(!new)>(a: seq<T>, b: seq<T>, less: (T, T) -> bool)
    requires StrictTotal(less) && Sorted(a, less) && Sorted(b, less) && a != []
    requires multiset(a) == multiset(b)
    ensures b != [] && a[0] == b[0]
  {
    assert a[0] in multiset(b);
    assert a[0] in b && b[0] in multiset(a);
    assert b[0] in a;
    var i :| 0 <= i < |a| && a[i] == b[0];
    var j :| 0 <= j < |b| && b[j] == a[0];
  }

  /** Two sorted lists of the same elements are equal. */
  lemma {:induction false} SortedUnique<T(!new)>(a: seq<T>, b: seq<T>, less: (T, T) -> bool)
    requires StrictTotal(less) && Sorted(a, less) && Sorted(b, less)
    requires multiset(a) == multiset(b)
    ensures a == b
    decreases |a|
  {
    if a == [] {
      assert |multiset(b)| == |b|;
    } else {
      SameHead(a, b, less);
      assert a == [a[0]] + a[1..] && b == [b[0]] + b[1..];
      assert multiset(a[1..]) == multiset(a) - multiset{a[0]};
      assert multiset(b[1..]) == multiset(b) - multiset{b[0]};
      SortedUnique(a[1..], b[1..], less);
    }
  }

  lemma SortMembers<T(!new)>(s: seq<T>, less: (T, T) -> bool)
    requires StrictTotal(less)
    ensures |Sort(s, less)| == |s|
    ensures forall x :: x in Sort(s, less) <==> x in s
  {
    SortOk(s, less);
    assert |multiset(Sort(s, less))| == |multiset(s)|;
    assert forall x :: x in Sort(s, less) <==> x in multiset(Sort(s, less));
    assert forall x :: x in s <==> x in multiset(s);
  }

  // ---------------------------------------------------------------- lists without repetition

  ghost predicate Distinct<T(!new)>(s: seq<T>) {
    forall i, j :: 0 <= i < j < |s| ==> s[i] != s[j]
  }

  lemma {:induction false} DistinctMultiset<T(!new)>(s: seq<T>)
    requires Distinct(s)
    ensures multiset(s) == multiset(set x | x in s)
  {
    if s == [] {
    } else {
      var front, last := s[..|s| - 1], s[|s| - 1];
      assert s == front + [last];
      assert last !in front;
      DistinctMultiset(front);
      assert (set x | x in s) == (set x | x in front) + {last};
    }
  }

  lemma CountTwice<T(!new)>(r: seq<T>, i: nat, j: nat)
    requires i < j < |r| && r[i] == r[j]
    ensures multiset(r)[r[i]] >= 2
  {
    assert r == r[..j] + [r[j]] + r[j + 1..];
    assert r[..j] == r[..i] + [r[i]] + r[i + 1..j];
  }

  /** The sorted form of a repetition-free list is strictly increasing. */
  lemma SortStrict<T(!new)>(s: seq<T>, less: (T, T) -> bool)
    requires StrictTotal(less) && Distinct(s)
    ensures forall i, j :: 0 <= i < j < |s| ==>
      |Sort(s, less)| == |s| && less(Sort(s, less)[i], Sort(s, less)[j])
  {
    var r := Sort(s, less);
    SortOk(s, less);
    SortMembers(s, less);
    DistinctMultiset(s);
    forall i, j | 0 <= i < j < |s| ensures less(r[i], r[j]) {
      if r[i] == r[j] {
        CountTwice(r, i, j);
      }
    }
  }
}
