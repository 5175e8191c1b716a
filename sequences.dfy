/** Sequence helpers shared by several components: distinctness, first
    occurrences, and the `[...new Set(xs)]` idiom the source uses to remove
    duplicates. */
module Sequences {

  /** No element occurs twice. */
  predicate NoDups<T(==)>(s: seq<T>) {
    forall i, j :: 0 <= i < j < |s| ==> s[i] != s[j]
  }

  /** Index of the first occurrence of `x` in `s` (JavaScript `indexOf`). */
  function IndexOf<T(==)>(s: seq<T>, x: T): (k: nat)
    requires x in s
    ensures k < |s| && s[k] == x
    ensures forall j :: 0 <= j < k ==> s[j] != x
  {
    if s[0] == x then 0 else 1 + IndexOf(s[1..], x)
  }

  /** `[...new Set(s)]`: every element of `s` once. A JavaScript `Set`
      iterates in insertion order, so an element keeps the place of its
      first occurrence. */
  function Dedupe<T(==)>(s: seq<T>): (r: seq<T>)
    ensures NoDups(r)
    ensures forall i :: 0 <= i < |r| ==> r[i] in s
    ensures forall i :: 0 <= i < |s| ==> s[i] in r
    ensures |r| <= |s|
  {
    if s == [] then []
    else
      var init := s[..|s| - 1];
      var d := Dedupe(init);
      assert s == init + [s[|s| - 1]];
      if s[|s| - 1] in d then d else d + [s[|s| - 1]]
  }

  /** On a sequence without duplicates the `Set` round trip changes nothing. */
  lemma {:induction false} DedupeOfDistinct<T>(s: seq<T>)
    requires NoDups(s)
    ensures Dedupe(s) == s
  {
    if s != [] {
      var init := s[..|s| - 1];
      assert NoDups(init);
      DedupeOfDistinct(init);
      assert s[|s| - 1] !in init by {
        forall i | 0 <= i < |init| ensures init[i] != s[|s| - 1] {
          assert init[i] == s[i];
        }
      }
    }
  }

  /** Appending an element does not move the first occurrence of one
      already present. */
  lemma IndexOfAppendOld<T>(s: seq<T>, x: T, y: T)
    requires y in s
    ensures IndexOf(s + [x], y) == IndexOf(s, y)
  {
    assert (s + [x])[IndexOf(s, y)] == y;
  }

  /** An element new to `s` first occurs at the appended position. */
  lemma IndexOfAppendNew<T>(s: seq<T>, x: T)
    requires x !in s
    ensures IndexOf(s + [x], x) == |s|
  {
    assert (s + [x])[|s|] == x;
  }

  /** Dedupe lists elements in the order of their first occurrence in `s`. */
  lemma {:induction false} DedupeFirstOccurrenceOrder<T>(s: seq<T>)
    ensures forall i, j :: 0 <= i < j < |Dedupe(s)| ==>
      IndexOf(s, Dedupe(s)[i]) < IndexOf(s, Dedupe(s)[j])
  {
    if s != [] {
      var init, last := s[..|s| - 1], s[|s| - 1];
      assert s == init + [last];
      var d := Dedupe(init);
      DedupeFirstOccurrenceOrder(init);
      forall y | y in init ensures IndexOf(s, y) == IndexOf(init, y) {
        IndexOfAppendOld(init, last, y);
      }
      if last !in d {
        IndexOfAppendNew(init, last);
        var r := Dedupe(s);
        assert r == d + [last];
        forall i, j | 0 <= i < j < |r| ensures IndexOf(s, r[i]) < IndexOf(s, r[j]) {
          assert r[i] == d[i] && r[i] in init;
          if j < |d| {
            assert r[j] == d[j] && r[j] in init;
          } else {
            assert IndexOf(init, r[i]) < |init|;
          }
        }
      }
    }
  }

  /** `s` without any occurrence of `x`, the rest in order. */
  function Without<T(==)>(s: seq<T>, x: T): (r: seq<T>)
    ensures x !in r && |r| <= |s|
    ensures forall i :: 0 <= i < |r| ==> r[i] in s
    ensures forall i :: 0 <= i < |s| && s[i] != x ==> s[i] in r
    ensures NoDups(s) ==> NoDups(r)
  {
    if s == [] then []
    else
      var rest := Without(s[1..], x);
      assert forall i :: 1 <= i < |s| ==> s[i] == s[1..][i - 1];
      assert NoDups(s) ==> NoDups(s[1..]) && s[0] !in rest by {
        if NoDups(s) {
          forall i, j | 0 <= i < j < |s| - 1 ensures s[1..][i] != s[1..][j] {
            assert s[1..][i] == s[i + 1] && s[1..][j] == s[j + 1];
          }
          assert s[0] !in s[1..];
        }
      }
      if s[0] == x then rest else [s[0]] + rest
  }

  /** The first element and the rest of a concatenation with a non-empty
      first part. */
  lemma ConsConcat<T>(a: seq<T>, b: seq<T>)
    requires a != []
    ensures (a + b)[0] == a[0] && (a + b)[1..] == a[1..] + b
  {
  }

  /** The filter keeps order: filtering a concatenation filters each part. */
  lemma {:induction false} WithoutConcat<T>(a: seq<T>, b: seq<T>, x: T)
    ensures Without(a + b, x) == Without(a, x) + Without(b, x)
  {
    if a == [] {
      assert a + b == b;
    } else {
      ConsConcat(a, b);
      WithoutConcat(a[1..], b, x);
    }
  }

  /** Without an occurrence, the filter changes nothing. */
  lemma {:induction false} WithoutAbsent<T>(s: seq<T>, x: T)
    requires x !in s
    ensures Without(s, x) == s
  {
    if s != [] {
      WithoutAbsent(s[1..], x);
      assert s == [s[0]] + s[1..];
    }
  }
}
