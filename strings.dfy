/** The JavaScript string operations the portal relies on, written out over
    `seq<char>`: white space and `trim`, `includes`, the last piece of
    `split(', ')`, decimal rendering of a number and the default
    (lexicographic) `sort` of strings. */
module Strings {
  import opened Sequences

  /** A JavaScript white-space or line-terminator character: what the regular
      expression class `\s` matches and what `String.prototype.trim` removes. */
  predicate IsWhitespace(c: char) {
    || c == ' ' || c == '\t' || c == '\n' || c == '\U{0B}' || c == '\U{0C}' || c == '\r'
    || c == '\U{A0}' || c == '\U{1680}' || ('\U{2000}' <= c <= '\U{200A}')
    || c == '\U{2028}' || c == '\U{2029}' || c == '\U{202F}' || c == '\U{205F}'
    || c == '\U{3000}' || c == '\U{FEFF}'
  }

  /** `s` with its leading white space removed. */
  function TrimStart(s: string): (r: string)
    ensures |r| <= |s| && r == s[|s| - |r|..]
    ensures forall i :: 0 <= i < |s| - |r| ==> IsWhitespace(s[i])
    ensures r != [] ==> !IsWhitespace(r[0])
  {
    if s != [] && IsWhitespace(s[0]) then TrimStart(s[1..]) else s
  }

  /** `s` with its trailing white space removed. */
  function TrimEnd(s: string): (r: string)
    ensures |r| <= |s| && r == s[..|r|]
    ensures forall i :: |r| <= i < |s| ==> IsWhitespace(s[i])
    ensures r != [] ==> !IsWhitespace(r[|r| - 1])
  {
    if s != [] && IsWhitespace(s[|s| - 1]) then TrimEnd(s[..|s| - 1]) else s
  }

  /** `s.trim()`. */
  function Trim(s: string): string {
    TrimEnd(TrimStart(s))
  }

  /** `s.trim() !== ''` holds exactly when `s` has a character that is not
      white space. */
  lemma TrimEmptyIffBlank(s: string)
    ensures Trim(s) == [] <==> forall i :: 0 <= i < |s| ==> IsWhitespace(s[i])
  {
    var t := TrimStart(s);
    if Trim(s) == [] {
      forall i | 0 <= i < |s| ensures IsWhitespace(s[i]) {
        if i >= |s| - |t| {
          assert s[i] == t[i - (|s| - |t|)];
        }
      }
    } else {
      var r := Trim(s);
      assert r[0] == t[0] == s[|s| - |t|];
    }
  }

  /** `part` occurs in `s` starting at index `i`. */
  predicate OccursAt(s: string, part: string, i: int) {
    0 <= i && i + |part| <= |s| && s[i..i + |part|] == part
  }

  /** `s.includes(part)`: `part` occurs in `s` as a contiguous piece. */
  predicate Contains(s: string, part: string) {
    exists i :: 0 <= i <= |s| - |part| && OccursAt(s, part, i)
  }

  /** The end of the last `", "` that ends at or before `k`, or 0 if there
      is none. */
  function LastSeparatorEnd(s: string, k: nat): (e: nat)
    requires k <= |s|
    ensures e <= k
    ensures e == 0 || (e >= 2 && OccursAt(s, ", ", e - 2))
    ensures forall j :: 0 <= j && e < j + 2 <= k ==> !OccursAt(s, ", ", j)
  {
    if k < 2 then 0
    else if OccursAt(s, ", ", k - 2) then k
    else LastSeparatorEnd(s, k - 1)
  }

  /** `s.split(', ').pop()`: the text after the last `", "` (all of `s`
      when it has none). The separator cannot overlap itself, so the pieces
      of the split end exactly at its occurrences. */
  function LastSegment(s: string): (r: string)
    ensures |r| <= |s| && r == s[|s| - |r|..]
    ensures !Contains(r, ", ")
    ensures |r| < |s| ==> |s| - |r| >= 2 && s[|s| - |r| - 2..|s| - |r|] == ", "
  {
    var e := LastSeparatorEnd(s, |s|);
    var r := s[e..];
    assert !Contains(r, ", ") by {
      forall i | 0 <= i <= |r| - 2 ensures !OccursAt(r, ", ", i) {
        assert r[i..i + 2] == s[e + i..e + i + 2];
        assert !OccursAt(s, ", ", e + i);
      }
    }
    r
  }

  /** A string without `", "` is its own last segment. */
  lemma LastSegmentOfPlain(s: string)
    requires !Contains(s, ", ")
    ensures LastSegment(s) == s
  {
    var r := LastSegment(s);
    assert |r| < |s| ==> OccursAt(s, ", ", |s| - |r| - 2);
  }

  /** The decimal digit for `d`. */
  function DigitChar(d: nat): (c: char)
    requires d < 10
    ensures '0' <= c <= '9'
  {
    ('0' as int + d) as char
  }

  /** The decimal rendering of a non-negative integer, as a template literal
      `${n}` produces it. */
  function NatToString(n: nat): (r: string)
    ensures |r| >= 1
    ensures forall i :: 0 <= i < |r| ==> '0' <= r[i] <= '9'
    ensures (|r| == 1) == (n < 10)
  {
    if n < 10 then [DigitChar(n)] else NatToString(n / 10) + [DigitChar(n % 10)]
  }

  /** Distinct numbers have distinct renderings. */
  lemma {:induction false} NatToStringInjective(a: nat, b: nat)
    requires NatToString(a) == NatToString(b)
    ensures a == b
  {
    if a >= 10 && b >= 10 {
      var ra, rb := NatToString(a), NatToString(b);
      assert ra[|ra| - 1] == DigitChar(a % 10);
      assert rb[|rb| - 1] == DigitChar(b % 10);
      assert a % 10 == b % 10;
      assert ra[..|ra| - 1] == NatToString(a / 10);
      assert rb[..|rb| - 1] == NatToString(b / 10);
      NatToStringInjective(a / 10, b / 10);
    } else if a < 10 && b < 10 {
      assert NatToString(a)[0] == DigitChar(a);
      assert NatToString(b)[0] == DigitChar(b);
    }
  }

  /** JavaScript's default comparison of strings, `a <= b`: character by
      character, a proper prefix first. */
  predicate Below(a: string, b: string) {
    if a == [] then true
    else if b == [] then false
    else if a[0] != b[0] then a[0] < b[0]
    else Below(a[1..], b[1..])
  }

  lemma BelowTotal(a: string, b: string)
    ensures Below(a, b) || Below(b, a)
  {
  }

  lemma BelowAntisymmetric(a: string, b: string)
    requires Below(a, b) && Below(b, a)
    ensures a == b
  {
    if a != [] && b != [] {
      BelowAntisymmetric(a[1..], b[1..]);
      assert a == [a[0]] + a[1..] && b == [b[0]] + b[1..];
    }
  }

  lemma BelowTransitive(a: string, b: string, c: string)
    requires Below(a, b) && Below(b, c)
    ensures Below(a, c)
  {
    if a != [] && b != [] && c != [] && a[0] == b[0] == c[0] {
      BelowTransitive(a[1..], b[1..], c[1..]);
    }
  }

  /** In ascending order. */
  predicate Sorted(s: seq<string>) {
    forall i, j :: 0 <= i < j < |s| ==> Below(s[i], s[j])
  }

  /** `x` placed into a sorted sequence before the first element it is
      below. */
  function Insert(x: string, s: seq<string>): (r: seq<string>)
    ensures multiset(r) == multiset(s) + multiset{x}
  {
    if s == [] then [x]
    else if Below(x, s[0]) then [x] + s
    else
      assert s == [s[0]] + s[1..];
      [s[0]] + Insert(x, s[1..])
  }

  lemma {:induction false} InsertSorted(x: string, s: seq<string>)
    requires Sorted(s)
    ensures Sorted(Insert(x, s))
  {
    if s != [] {
      if Below(x, s[0]) {
        forall j | 0 < j < |s| ensures Below(x, s[j]) {
          BelowTransitive(x, s[0], s[j]);
        }
      } else {
        BelowTotal(x, s[0]);
        InsertSorted(x, s[1..]);
        var t := Insert(x, s[1..]);
        forall j | 0 <= j < |t| ensures Below(s[0], t[j]) {
          assert t[j] in multiset(t);
          if t[j] != x {
            assert t[j] in s[1..];
          }
        }
      }
    }
  }

  lemma {:induction false} InsertDistinct(x: string, s: seq<string>)
    requires NoDups(s) && x !in s
    ensures NoDups(Insert(x, s))
  {
    if s != [] && !Below(x, s[0]) {
      InsertDistinct(x, s[1..]);
      var t := Insert(x, s[1..]);
      assert s[0] !in t by {
        assert s[0] !in s[1..];
        assert s[0] !in multiset(t);
      }
    }
  }

  /** `xs.sort()` on strings (an insertion sort). */
  function SortStrings(s: seq<string>): (r: seq<string>)
    ensures multiset(r) == multiset(s)
  {
    if s == [] then []
    else
      assert s == [s[0]] + s[1..];
      Insert(s[0], SortStrings(s[1..]))
  }

  lemma {:induction false} SortStringsSorted(s: seq<string>)
    ensures Sorted(SortStrings(s))
  {
    if s != [] {
      SortStringsSorted(s[1..]);
      InsertSorted(s[0], SortStrings(s[1..]));
    }
  }

  lemma {:induction false} SortStringsDistinct(s: seq<string>)
    requires NoDups(s)
    ensures NoDups(SortStrings(s))
  {
    if s != [] {
      SortStringsDistinct(s[1..]);
      assert s[0] !in multiset(SortStrings(s[1..]));
      InsertDistinct(s[0], SortStrings(s[1..]));
    }
  }
}
