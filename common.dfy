// Shared vocabulary for the model: optional values, JavaScript truthiness,
// ASCII case mapping, substring search, order-preserving filters, decimal
// numerals, Math.round on a ratio, split/join on one separator and trim.

module Common {

  datatype Option<T> = None | Some(value: T)

  /** JavaScript truthiness of a string that may be missing: undefined, null
      and "" are falsy. */
  predicate Truthy(o: Option<string>) {
    o.Some? && o.value != ""
  }

  // ---------------------------------------------------------------------
  // Case mapping (ASCII letters only)
  // ---------------------------------------------------------------------

  function LowerChar(c: char): (r: char)
    ensures 'A' <= c <= 'Z' ==> r as int == c as int + 32
    ensures !('A' <= c <= 'Z') ==> r == c
  {
    if 'A' <= c <= 'Z' then (c as int + 32) as char else c
  }

  function UpperChar(c: char): (r: char)
    ensures 'a' <= c <= 'z' ==> r as int == c as int - 32
    ensures !('a' <= c <= 'z') ==> r == c
  {
    if 'a' <= c <= 'z' then (c as int - 32) as char else c
  }

  /** String.prototype.toLowerCase, restricted to ASCII letters. */
  function Lower(s: string): (r: string)
    ensures |r| == |s|
    ensures forall i :: 0 <= i < |s| ==> r[i] == LowerChar(s[i])
  {
    seq(|s|, i requires 0 <= i < |s| => LowerChar(s[i]))
  }

  lemma LowerIdempotent(s: string)
    ensures Lower(Lower(s)) == Lower(s)
  {
  }

  // ---------------------------------------------------------------------
  // Substring search: String.prototype.includes
  // ---------------------------------------------------------------------

  predicate StartsWith(s: string, p: string) {
    |p| <= |s| && s[..|p|] == p
  }

  predicate Contains(hay: string, needle: string)
    decreases |hay|
  {
    StartsWith(hay, needle) || (|hay| > 0 && Contains(hay[1..], needle))
  }

  /** `hay.toLowerCase().includes(term.toLowerCase())` */
  predicate ContainsCI(hay: string, term: string) {
    Contains(Lower(hay), Lower(term))
  }

  lemma ContainsEmpty(hay: string)
    ensures Contains(hay, "")
  {
  }

  lemma ContainsCIEmpty(hay: string)
    ensures ContainsCI(hay, "")
  {
    ContainsEmpty(Lower(hay));
  }

  /** Every occurrence found by `Contains` sits at some offset of `hay`. */
  lemma {:induction false} ContainsAt(hay: string, needle: string)
    requires Contains(hay, needle)
    ensures exists i :: 0 <= i <= |hay| && StartsWith(hay[i..], needle)
  {
    if StartsWith(hay, needle) {
      assert hay[0..] == hay;
    } else {
      ContainsAt(hay[1..], needle);
      var i :| 0 <= i <= |hay[1..]| && StartsWith(hay[1..][i..], needle);
      assert hay[1..][i..] == hay[i + 1..];
    }
  }

  // ---------------------------------------------------------------------
  // Array.prototype.filter and order-preserving subsequences
  // ---------------------------------------------------------------------

  function Filter<T>(s: seq<T>, p: T -> bool): (r: seq<T>)
    ensures |r| <= |s|
    ensures forall i :: 0 <= i < |r| ==> p(r[i]) && r[i] in s
    ensures forall i :: 0 <= i < |s| && p(s[i]) ==> s[i] in r
  {
    if s == [] then []
    else (if p(s[0]) then [s[0]] else []) + Filter(s[1..], p)
  }

  /** `a` is `b` with some elements removed and the rest kept in order. */
  predicate IsSubsequence<T(==)>(a: seq<T>, b: seq<T>)
    decreases |b|
  {
    if a == [] then true
    else if b == [] then false
    else (a[0] == b[0] && IsSubsequence(a[1..], b[1..])) || IsSubsequence(a, b[1..])
  }

  lemma {:induction false} SubsequenceReflexive<T>(s: seq<T>)
    ensures IsSubsequence(s, s)
    decreases |s|
  {
    if s != [] {
      SubsequenceReflexive(s[1..]);
    }
  }

  /** Every element of a subsequence is an element of the whole. */
  lemma {:induction false} SubsequenceMembers<T>(a: seq<T>, b: seq<T>)
    requires IsSubsequence(a, b)
    ensures forall i :: 0 <= i < |a| ==> a[i] in b
    decreases |b|
  {
    if a != [] {
      if a[0] == b[0] && IsSubsequence(a[1..], b[1..]) {
        SubsequenceMembers(a[1..], b[1..]);
        forall i | 1 <= i < |a|
          ensures a[i] in b
        {
          assert a[1..][i - 1] == a[i];
        }
      } else {
        SubsequenceMembers(a, b[1..]);
      }
    }
  }

  /** Extending the whole keeps a subsequence; extending both by the same
      element does too. */
  lemma {:induction false} SubsequenceExtend<T>(a: seq<T>, b: seq<T>, x: T)
    requires IsSubsequence(a, b)
    ensures IsSubsequence(a, b + [x])
    ensures IsSubsequence(a + [x], b + [x])
    decreases |b|
  {
    if b == [] {
      assert a == [];
      assert (a + [x])[1..] == [];
    } else {
      assert (b + [x])[0] == b[0];
      assert (b + [x])[1..] == b[1..] + [x];
      if a == [] {
        SubsequenceExtend(a, b[1..], x);
        assert a + [x] == [x];
      } else if a[0] == b[0] && IsSubsequence(a[1..], b[1..]) {
        SubsequenceExtend(a[1..], b[1..], x);
        assert (a + [x])[0] == a[0];
        assert (a + [x])[1..] == a[1..] + [x];
      } else {
        SubsequenceExtend(a, b[1..], x);
      }
    }
  }

  lemma {:induction false} FilterIsSubsequence<T>(s: seq<T>, p: T -> bool)
    ensures IsSubsequence(Filter(s, p), s)
    decreases |s|
  {
    if s != [] {
      FilterIsSubsequence(s[1..], p);
      if p(s[0]) {
        assert Filter(s, p)[0] == s[0];
        assert Filter(s, p)[1..] == Filter(s[1..], p);
      } else {
        assert Filter(s, p) == Filter(s[1..], p);
      }
    }
  }

  lemma {:induction false} FilterKeepsAll<T>(s: seq<T>, p: T -> bool)
    requires forall i :: 0 <= i < |s| ==> p(s[i])
    ensures Filter(s, p) == s
    decreases |s|
  {
    if s != [] {
      FilterKeepsAll(s[1..], p);
    }
  }

  lemma {:induction false} FilterNone<T>(s: seq<T>, p: T -> bool)
    requires forall i :: 0 <= i < |s| ==> !p(s[i])
    ensures Filter(s, p) == []
    decreases |s|
  {
    if s != [] {
      FilterNone(s[1..], p);
    }
  }

  lemma FilterIdempotent<T>(s: seq<T>, p: T -> bool)
    ensures Filter(Filter(s, p), p) == Filter(s, p)
  {
    FilterKeepsAll(Filter(s, p), p);
  }

  lemma {:induction false} FilterAppend<T>(a: seq<T>, b: seq<T>, p: T -> bool)
    ensures Filter(a + b, p) == Filter(a, p) + Filter(b, p)
    decreases |a|
  {
    if a == [] {
      assert a + b == b;
    } else {
      var ab := a + b;
      assert ab[0] == a[0];
      assert ab[1..] == a[1..] + b;
      FilterAppend(a[1..], b, p);
      if p(a[0]) {
        calc {
          Filter(ab, p);
          [a[0]] + Filter(a[1..] + b, p);
          [a[0]] + (Filter(a[1..], p) + Filter(b, p));
          ([a[0]] + Filter(a[1..], p)) + Filter(b, p);
        }
      }
    }
  }

  /** Filtering with a stronger predicate after a weaker one is filtering
      with the stronger one. */
  lemma {:induction false} FilterFilter<T>(s: seq<T>, p: T -> bool, q: T -> bool)
    requires forall x :: q(x) ==> p(x)
    ensures Filter(Filter(s, p), q) == Filter(s, q)
    decreases |s|
  {
    if s != [] {
      FilterFilter(s[1..], p, q);
      var h: seq<T> := if q(s[0]) then [s[0]] else [];
      assert Filter(s, q) == h + Filter(s[1..], q);
      if p(s[0]) {
        var fp := Filter(s, p);
        assert fp == [s[0]] + Filter(s[1..], p);
        assert fp[0] == s[0] && fp[1..] == Filter(s[1..], p);
        assert Filter(fp, q) == h + Filter(fp[1..], q);
      } else {
        assert Filter(s, p) == Filter(s[1..], p);
        assert h == [];
      }
    }
  }

  /** A relation that holds between every earlier and later element still
      holds after a filter. */
  lemma {:induction false} FilterPairwise<T>(s: seq<T>, p: T -> bool, rel: (T, T) -> bool)
    requires forall i, j :: 0 <= i < j < |s| ==> rel(s[i], s[j])
    ensures forall i, j :: 0 <= i < j < |Filter(s, p)| ==> rel(Filter(s, p)[i], Filter(s, p)[j])
    decreases |s|
  {
    if s != [] {
      var tail := Filter(s[1..], p);
      assert forall i, j :: 0 <= i < j < |s[1..]| ==> rel(s[1..][i], s[1..][j]) by {
        forall i, j | 0 <= i < j < |s[1..]|
          ensures rel(s[1..][i], s[1..][j])
        {
          assert s[1..][i] == s[i + 1] && s[1..][j] == s[j + 1];
        }
      }
      FilterPairwise(s[1..], p, rel);
      if p(s[0]) {
        var r := Filter(s, p);
        assert r == [s[0]] + tail;
        forall i, j | 0 <= i < j < |r|
          ensures rel(r[i], r[j])
        {
          if i == 0 {
            assert r[j] == tail[j - 1] && tail[j - 1] in s[1..];
            var m :| 0 <= m < |s[1..]| && s[1..][m] == r[j];
            assert s[m + 1] == r[j] && r[0] == s[0];
            assert rel(s[0], s[m + 1]);
          } else {
            assert r[i] == tail[i - 1] && r[j] == tail[j - 1];
            assert 0 <= i - 1 < j - 1 < |tail|;
            assert rel(tail[i - 1], tail[j - 1]);
          }
        }
      } else {
        assert Filter(s, p) == tail;
      }
    }
  }

  /** Two filters with complementary predicates share out the elements. */
  lemma {:induction false} FilterCount<T>(s: seq<T>, p: T -> bool, q: T -> bool)
    requires forall i :: 0 <= i < |s| ==> (p(s[i]) <==> !q(s[i]))
    ensures |Filter(s, p)| + |Filter(s, q)| == |s|
    decreases |s|
  {
    if s != [] {
      assert forall i :: 0 <= i < |s[1..]| ==> s[1..][i] == s[i + 1];
      FilterCount(s[1..], p, q);
    }
  }

  /** The first element kept by a filter is the first element of `s` that
      satisfies the predicate. */
  lemma {:induction false} FilterFirst<T>(s: seq<T>, p: T -> bool, k: nat)
    requires k < |s| && p(s[k])
    requires forall j :: 0 <= j < k ==> !p(s[j])
    ensures |Filter(s, p)| > 0 && Filter(s, p)[0] == s[k]
    decreases k
  {
    if k > 0 {
      FilterFirst(s[1..], p, k - 1);
    }
  }

  /** The second element kept by a filter is the second element of `s`
      that satisfies the predicate. */
  lemma {:induction false} FilterSecond<T>(s: seq<T>, p: T -> bool, k1: nat, k2: nat)
    requires k1 < k2 < |s| && p(s[k1]) && p(s[k2])
    requires forall j :: 0 <= j < k1 ==> !p(s[j])
    requires forall j :: k1 < j < k2 ==> !p(s[j])
    ensures |Filter(s, p)| >= 2 && Filter(s, p)[1] == s[k2]
    decreases k1
  {
    if k1 == 0 {
      FilterFirst(s[1..], p, k2 - 1);
      assert Filter(s, p) == [s[0]] + Filter(s[1..], p);
    } else {
      FilterSecond(s[1..], p, k1 - 1, k2 - 1);
    }
  }

  /** A filter keeps every copy of the values it accepts and none of the
      others. */
  lemma {:induction false} FilterMultiplicity<T>(s: seq<T>, p: T -> bool, x: T)
    ensures multiset(Filter(s, p))[x] == if p(x) then multiset(s)[x] else 0
    decreases |s|
  {
    if s != [] {
      FilterMultiplicity(s[1..], p, x);
      assert s == [s[0]] + s[1..];
      assert multiset(s) == multiset([s[0]]) + multiset(s[1..]);
      var h := if p(s[0]) then [s[0]] else [];
      assert Filter(s, p) == h + Filter(s[1..], p);
      assert multiset(Filter(s, p)) == multiset(h) + multiset(Filter(s[1..], p));
    }
  }

  lemma FilterMultiplicities<T>(s: seq<T>, p: T -> bool)
    ensures forall x :: multiset(Filter(s, p))[x] == if p(x) then multiset(s)[x] else 0
  {
    forall x
      ensures multiset(Filter(s, p))[x] == if p(x) then multiset(s)[x] else 0
    {
      FilterMultiplicity(s, p, x);
    }
  }

  /** No value occurs twice. */
  predicate NoDup<T(==)>(s: seq<T>) {
    forall i, j :: 0 <= i < j < |s| ==> s[i] != s[j]
  }

  // ---------------------------------------------------------------------
  // Decimal numerals: String(n) for a non-negative integer, and back
  // ---------------------------------------------------------------------

  predicate IsDigit(c: char) {
    '0' <= c <= '9'
  }

  predicate AllDigits(s: string) {
    forall i :: 0 <= i < |s| ==> IsDigit(s[i])
  }

  function DigitChar(d: nat): (c: char)
    requires d < 10
    ensures IsDigit(c) && c as int - '0' as int == d
  {
    ('0' as int + d) as char
  }

  function NatToString(n: nat): (s: string)
    ensures 1 <= |s| && AllDigits(s)
    decreases n
  {
    if n < 10 then [DigitChar(n)] else NatToString(n / 10) + [DigitChar(n % 10)]
  }

  /** The value of a run of decimal digits, most significant first. */
  function DigitsValue(s: string): nat
    requires AllDigits(s)
  {
    if s == [] then 0
    else DigitsValue(s[..|s| - 1]) * 10 + (s[|s| - 1] as int - '0' as int)
  }

  lemma {:induction false} NatToStringRoundTrip(n: nat)
    ensures DigitsValue(NatToString(n)) == n
    decreases n
  {
    if n >= 10 {
      NatToStringRoundTrip(n / 10);
      var s := NatToString(n);
      assert s[..|s| - 1] == NatToString(n / 10);
    }
  }

  /** String(n) has no leading zero, except for n == 0 itself. */
  lemma {:induction false} NatToStringNoLeadingZero(n: nat)
    ensures (NatToString(n)[0] == '0') <==> n == 0
    decreases n
  {
    if n >= 10 {
      NatToStringNoLeadingZero(n / 10);
    }
  }

  /** `Math.round(p / t * 100)` for t > 0, on exact rationals: the integer
      nearest to 100p/t, halves rounded up. */
  function RoundPercent(p: int, t: int): (r: int)
    requires t > 0
    ensures 2 * t * r <= 200 * p + t < 2 * t * (r + 1)
  {
    (200 * p + t) / (2 * t)
  }

  // ---------------------------------------------------------------------
  // String.prototype.split with a one-character separator, and join
  // ---------------------------------------------------------------------

  function Split(s: string, sep: char): (r: seq<string>)
    ensures |r| >= 1
    decreases |s|
  {
    if s == [] then [""]
    else if s[0] == sep then [""] + Split(s[1..], sep)
    else
      var rest := Split(s[1..], sep);
      [[s[0]] + rest[0]] + rest[1..]
  }

  function Join(parts: seq<string>, sep: char): string
    requires |parts| >= 1
    decreases |parts|
  {
    if |parts| == 1 then parts[0] else parts[0] + [sep] + Join(parts[1..], sep)
  }

  lemma {:induction false} SplitJoin(s: string, sep: char)
    ensures Join(Split(s, sep), sep) == s
    decreases |s|
  {
    if s != [] {
      SplitJoin(s[1..], sep);
      if s[0] != sep {
        var rest := Split(s[1..], sep);
        var r := Split(s, sep);
        assert r[1..] == rest[1..];
        if |rest| > 1 {
          assert Join(rest, sep) == rest[0] + [sep] + Join(rest[1..], sep);
        }
      }
    }
  }

  lemma {:induction false} SplitPiecesHaveNoSep(s: string, sep: char)
    ensures forall k :: 0 <= k < |Split(s, sep)| ==> sep !in Split(s, sep)[k]
    decreases |s|
  {
    if s != [] {
      SplitPiecesHaveNoSep(s[1..], sep);
    }
  }

  /** The number of pieces is the number of separators plus one. */
  lemma {:induction false} SplitCount(s: string, sep: char)
    ensures |Split(s, sep)| == multiset(s)[sep] + 1
    decreases |s|
  {
    if s != [] {
      SplitCount(s[1..], sep);
      assert s == [s[0]] + s[1..];
    }
  }

  /** Text without the separator is one piece. */
  lemma {:induction false} SplitNoSep(t: string, sep: char)
    requires sep !in t
    ensures Split(t, sep) == [t]
    decreases |t|
  {
    if t != [] {
      SplitNoSep(t[1..], sep);
      assert [t[0]] + t[1..] == t;
    }
  }

  /** The last piece is the text after the last separator. */
  lemma {:induction false} SplitLast(s: string, sep: char, t: string)
    requires sep !in t
    ensures |Split(s + [sep] + t, sep)| >= 2
    ensures Split(s + [sep] + t, sep)[|Split(s + [sep] + t, sep)| - 1] == t
    decreases |s|
  {
    var whole := s + [sep] + t;
    if s == [] {
      assert whole[1..] == t;
      SplitNoSep(t, sep);
    } else {
      assert whole[1..] == s[1..] + [sep] + t;
      SplitLast(s[1..], sep, t);
    }
  }

  // ---------------------------------------------------------------------
  // String.prototype.trim
  // ---------------------------------------------------------------------

  /** The characters ECMAScript's trim removes: white space and line
      terminators (the Zs category is listed by code point). */
  predicate IsJsSpace(c: char) {
    var n := c as int;
    n == 0x09 || n == 0x0A || n == 0x0B || n == 0x0C || n == 0x0D || n == 0x20 ||
    n == 0xA0 || n == 0x1680 || (0x2000 <= n <= 0x200A) || n == 0x2028 ||
    n == 0x2029 || n == 0x202F || n == 0x205F || n == 0x3000 || n == 0xFEFF
  }

  function TrimStart(s: string): (r: string)
    ensures |r| <= |s| && r == s[|s| - |r|..]
    ensures r == [] || !IsJsSpace(r[0])
    ensures forall i :: 0 <= i < |s| - |r| ==> IsJsSpace(s[i])
    decreases |s|
  {
    if s != [] && IsJsSpace(s[0]) then TrimStart(s[1..]) else s
  }

  function TrimEnd(s: string): (r: string)
    ensures |r| <= |s| && r == s[..|r|]
    ensures r == [] || !IsJsSpace(r[|r| - 1])
    ensures forall i :: |r| <= i < |s| ==> IsJsSpace(s[i])
    decreases |s|
  {
    if s != [] && IsJsSpace(s[|s| - 1]) then TrimEnd(s[..|s| - 1]) else s
  }

  function Trim(s: string): (r: string) {
    TrimEnd(TrimStart(s))
  }

  /** Trim removes exactly the white space around a text that neither starts
      nor ends with white space. */
  lemma TrimPadded(pre: string, core: string, post: string)
    requires forall i :: 0 <= i < |pre| ==> IsJsSpace(pre[i])
    requires forall i :: 0 <= i < |post| ==> IsJsSpace(post[i])
    requires core == [] || (!IsJsSpace(core[0]) && !IsJsSpace(core[|core| - 1]))
    ensures Trim(pre + core + post) == core
  {
    var s := pre + core + post;
    var a := TrimStart(s);
    if core == [] {
      assert forall i :: 0 <= i < |s| ==> IsJsSpace(s[i]);
      assert a == [];
    } else {
      assert s[|pre|] == core[0];
      assert |a| == |core| + |post|;
      assert a == core + post;
      var b := TrimEnd(a);
      assert a[|core| - 1] == core[|core| - 1];
      assert |b| == |core|;
    }
  }

  // ---------------------------------------------------------------------
  // String.prototype.padStart with a one-character fill
  // ---------------------------------------------------------------------

  function Repeat(c: char, n: nat): (r: string)
    ensures |r| == n && forall i :: 0 <= i < n ==> r[i] == c
  {
    seq(n, _ => c)
  }

  function PadStart(s: string, width: nat, fill: char): (r: string)
    ensures |r| == if |s| >= width then |s| else width
    ensures r[|r| - |s|..] == s
    ensures forall i :: 0 <= i < |r| - |s| ==> r[i] == fill
  {
    if |s| >= width then s else Repeat(fill, width - |s|) + s
  }
}
