/** The few JavaScript string built-ins the client relies on, restricted to
    ASCII: `trim`, `toLowerCase`, `includes`, `split` on one character,
    `replace` of every occurrence of one character, and the decimal rendering
    of a non-negative integer inside a template literal. */
module JsString {

  /** The ASCII members of the set `String.prototype.trim` strips. */
  predicate IsWhitespace(c: char) {
    c == ' ' || c == '\t' || c == '\n' || c == '\r' || c == '\U{B}' || c == '\U{C}'
  }

  predicate AllWhitespace(s: string) {
    forall k :: 0 <= k < |s| ==> IsWhitespace(s[k])
  }

  /** Drops leading whitespace. */
  function TrimStart(s: string): (r: string)
  {
    if s != [] && IsWhitespace(s[0]) then TrimStart(s[1..]) else s
  }

  /** Drops trailing whitespace. */
  function TrimEnd(s: string): (r: string)
  {
    if s != [] && IsWhitespace(s[|s| - 1]) then TrimEnd(s[..|s| - 1]) else s
  }

  /** `TrimStart` returns the longest suffix that does not start with whitespace. */
  lemma {:induction false} TrimStartSpec(s: string)
    ensures var r := TrimStart(s);
      |r| <= |s| && r == s[|s| - |r|..] &&
      AllWhitespace(s[..|s| - |r|]) && (r == [] || !IsWhitespace(r[0]))
  {
    if s != [] && IsWhitespace(s[0]) {
      TrimStartSpec(s[1..]);
      var r := TrimStart(s[1..]);
      assert s[1..][..|s[1..]| - |r|] == s[1..|s| - |r|];
    }
  }

  /** `TrimEnd` returns the longest prefix that does not end with whitespace. */
  lemma {:induction false} TrimEndSpec(s: string)
    ensures var r := TrimEnd(s);
      |r| <= |s| && r == s[..|r|] &&
      AllWhitespace(s[|r|..]) && (r == [] || !IsWhitespace(r[|r| - 1]))
  {
    if s != [] && IsWhitespace(s[|s| - 1]) {
      TrimEndSpec(s[..|s| - 1]);
      var r := TrimEnd(s[..|s| - 1]);
      assert s[..|s| - 1][..|r|] == s[..|r|];
      assert s[|r|..] == s[..|s| - 1][|r|..] + [s[|s| - 1]];
    }
  }

  /** `String.prototype.trim`: the infix `s[i..j]` left after removing the
      whitespace at both ends. */
  function Trim(s: string): (r: string)
  {
    TrimEnd(TrimStart(s))
  }

  /** The trimmed string is an infix of the input with only whitespace cut
      away on either side, and it neither starts nor ends with whitespace. */
  lemma TrimIsInfix(s: string) returns (i: nat, j: nat)
    ensures i <= j <= |s| && Trim(s) == s[i..j]
    ensures AllWhitespace(s[..i]) && AllWhitespace(s[j..])
    ensures Trim(s) == [] || (!IsWhitespace(Trim(s)[0]) && !IsWhitespace(Trim(s)[|Trim(s)| - 1]))
  {
    var t := TrimStart(s);
    var r := TrimEnd(t);
    TrimStartSpec(s);
    TrimEndSpec(t);
    i := |s| - |t|;
    j := i + |r|;
    assert t[..|r|] == s[i..j];
    assert t[|r|..] == s[j..];
    if r != [] {
      assert r[0] == t[0];
    }
  }

  /** `s.trim()` is empty (falsy) exactly when `s` is all whitespace. */
  lemma TrimEmptyIff(s: string)
    ensures Trim(s) == [] <==> AllWhitespace(s)
  {
    var i, j := TrimIsInfix(s);
    if Trim(s) == [] {
      assert i == j;
      forall k | 0 <= k < |s| ensures IsWhitespace(s[k]) {
        if k < i { assert s[..i][k] == s[k]; } else { assert s[j..][k - j] == s[k]; }
      }
    }
  }

  /** Trimming twice is trimming once. */
  lemma TrimIdempotent(s: string)
    ensures Trim(Trim(s)) == Trim(s)
  {
    var t := Trim(s);
    var _, _ := TrimIsInfix(s);
    if t != [] {
      assert TrimStart(t) == t;
      TrimEndSpec(t);
      assert TrimEnd(t) == t;
    }
  }

  lemma {:induction false} TrimStartSkips(pre: string, s: string)
    requires AllWhitespace(pre)
    ensures TrimStart(pre + s) == TrimStart(s)
  {
    if pre == [] {
      assert pre + s == s;
    } else {
      assert IsWhitespace(pre[0]);
      assert (pre + s)[0] == pre[0];
      assert (pre + s)[1..] == pre[1..] + s;
      TrimStartSkips(pre[1..], s);
    }
  }

  lemma {:induction false} TrimEndSkips(s: string, post: string)
    requires AllWhitespace(post)
    ensures TrimEnd(s + post) == TrimEnd(s)
  {
    if post == [] {
      assert s + post == s;
    } else {
      var n := |post| - 1;
      assert IsWhitespace(post[n]);
      assert (s + post)[|s + post| - 1] == post[n];
      assert (s + post)[..|s + post| - 1] == s + post[..n];
      TrimEndSkips(s, post[..n]);
    }
  }

  lemma {:induction false} TrimStartAppend(s: string, t: string)
    requires TrimStart(s) != []
    ensures TrimStart(s + t) == TrimStart(s) + t
  {
    if IsWhitespace(s[0]) {
      assert (s + t)[1..] == s[1..] + t;
      TrimStartAppend(s[1..], t);
    }
  }

  /** Whitespace added on either side does not change what `trim` returns. */
  lemma TrimIgnoresPadding(pre: string, s: string, post: string)
    requires AllWhitespace(pre) && AllWhitespace(post)
    ensures Trim(pre + s + post) == Trim(s)
  {
    assert pre + s + post == pre + (s + post);
    TrimStartSkips(pre, s + post);
    TrimStartSpec(s);
    if TrimStart(s) == [] {
      assert AllWhitespace(s + post) by {
        assert s == s[..|s| - |TrimStart(s)|];
      }
      TrimEmptyIff(s + post);
      TrimEmptyIff(s);
    } else {
      TrimStartAppend(s, post);
      TrimEndSkips(TrimStart(s), post);
    }
  }

  function LowerChar(c: char): (r: char)
  {
    if 'A' <= c <= 'Z' then (c as int + 32) as char else c
  }

  /** `String.prototype.toLowerCase` on ASCII letters, one character at a time. */
  function Lower(s: string): (r: string)
    ensures |r| == |s|
    ensures forall k :: 0 <= k < |s| ==> r[k] == LowerChar(s[k])
  {
    if s == [] then [] else [LowerChar(s[0])] + Lower(s[1..])
  }

  /** Lower-casing leaves no upper-case ASCII letter, so doing it twice is doing it once. */
  lemma LowerIdempotent(s: string)
    ensures forall k :: 0 <= k < |Lower(s)| ==> !('A' <= Lower(s)[k] <= 'Z')
    ensures Lower(Lower(s)) == Lower(s)
  {
  }

  /** `a` and `b` have the same length and agree once lower-cased, position by position. */
  predicate SameUpToCase(a: string, b: string) {
    |a| == |b| && forall k :: 0 <= k < |a| ==> LowerChar(a[k]) == LowerChar(b[k])
  }

  /** Two strings that agree up to case have equal lower-case forms, and conversely. */
  lemma LowerEqualIff(a: string, b: string)
    ensures Lower(a) == Lower(b) <==> SameUpToCase(a, b)
  {
    if SameUpToCase(a, b) {
      assert forall k :: 0 <= k < |a| ==> Lower(a)[k] == Lower(b)[k];
    }
  }

  /** Whitespace is never a letter, so strings that agree up to case lose the
      same leading whitespace and still agree up to case. */
  lemma {:induction false} TrimStartSameCase(a: string, b: string)
    requires SameUpToCase(a, b)
    ensures SameUpToCase(TrimStart(a), TrimStart(b))
  {
    if a != [] {
      assert IsWhitespace(a[0]) <==> IsWhitespace(b[0]) by {
        assert LowerChar(a[0]) == LowerChar(b[0]);
      }
      if IsWhitespace(a[0]) {
        assert forall k :: 0 <= k < |a| - 1 ==> a[1..][k] == a[k + 1] && b[1..][k] == b[k + 1];
        TrimStartSameCase(a[1..], b[1..]);
      }
    }
  }

  /** The same for trailing whitespace. */
  lemma {:induction false} TrimEndSameCase(a: string, b: string)
    requires SameUpToCase(a, b)
    ensures SameUpToCase(TrimEnd(a), TrimEnd(b))
  {
    if a != [] {
      var n := |a| - 1;
      assert IsWhitespace(a[n]) <==> IsWhitespace(b[n]) by {
        assert LowerChar(a[n]) == LowerChar(b[n]);
      }
      if IsWhitespace(a[n]) {
        assert forall k :: 0 <= k < n ==> a[..n][k] == a[k] && b[..n][k] == b[k];
        TrimEndSameCase(a[..n], b[..n]);
      }
    }
  }

  /** `trim` keeps agreement up to case. */
  lemma TrimSameCase(a: string, b: string)
    requires SameUpToCase(a, b)
    ensures SameUpToCase(Trim(a), Trim(b))
  {
    TrimStartSameCase(a, b);
    TrimEndSameCase(TrimStart(a), TrimStart(b));
  }

  /** `pat` occurs in `s` starting at index `i`. */
  predicate OccursAt(s: string, pat: string, i: int) {
    0 <= i && i + |pat| <= |s| && s[i..i + |pat|] == pat
  }

  /** `String.prototype.includes`, scanning left to right. */
  function Contains(s: string, pat: string): (r: bool)
  {
    |pat| <= |s| && (s[..|pat|] == pat || Contains(s[1..], pat))
  }

  /** `Contains` holds exactly when `pat` occurs at some index of `s`. */
  lemma {:induction false} ContainsIff(s: string, pat: string)
    ensures Contains(s, pat) <==> exists i :: OccursAt(s, pat, i)
  {
    if |pat| <= |s| {
      if s[..|pat|] == pat {
        assert OccursAt(s, pat, 0);
      } else {
        ContainsIff(s[1..], pat);
        if Contains(s[1..], pat) {
          var i :| OccursAt(s[1..], pat, i);
          assert s[1..][i..i + |pat|] == s[i + 1..i + 1 + |pat|];
          assert OccursAt(s, pat, i + 1);
        } else {
          assert s[..|pat|] == s[0..|pat|];
          forall i | OccursAt(s, pat, i) ensures OccursAt(s[1..], pat, i - 1) {
            assert s[1..][i - 1..i - 1 + |pat|] == s[i..i + |pat|];
          }
        }
      }
    }
  }

  /** `s.split(d)` for a one-character separator: the maximal runs between separators. */
  function Split(s: string, d: char): (parts: seq<string>)
    ensures |parts| >= 1
    ensures forall k :: 0 <= k < |parts| ==> d !in parts[k]
    ensures |parts| >= 2 <==> d in s
  {
    if s == [] then [[]]
    else
      var rest := Split(s[1..], d);
      assert d in s <==> s[0] == d || d in s[1..];
      if s[0] == d then [[]] + rest
      else [[s[0]] + rest[0]] + rest[1..]
  }

  /** `parts.join(d)`. */
  function Join(parts: seq<string>, d: char): (r: string)
    requires |parts| >= 1
  {
    if |parts| == 1 then parts[0] else parts[0] + [d] + Join(parts[1..], d)
  }

  /** Joining the split pieces with the separator gives back the string. */
  lemma {:induction false} SplitJoin(s: string, d: char)
    ensures Join(Split(s, d), d) == s
  {
    if s != [] {
      var rest := Split(s[1..], d);
      SplitJoin(s[1..], d);
      if s[0] == d {
        assert Split(s, d)[1..] == rest;
      } else {
        var parts := Split(s, d);
        if |rest| == 1 {
          assert parts == [[s[0]] + rest[0]];
        } else {
          assert parts[1..] == rest[1..];
          assert Join(rest, d) == rest[0] + [d] + Join(rest[1..], d);
        }
      }
    }
  }

  /** A string without the separator splits into itself alone. */
  lemma SplitWithoutSeparator(s: string, d: char)
    requires d !in s
    ensures Split(s, d) == [s]
  {
    SplitJoin(s, d);
  }

  /** Splitting `h + d + rest` where `h` holds no separator yields `h` and then the pieces of `rest`. */
  lemma {:induction false} SplitAfterPiece(h: string, d: char, rest: string)
    requires d !in h
    ensures Split(h + [d] + rest, d) == [h] + Split(rest, d)
  {
    if h == [] {
      assert ([] + [d] + rest)[1..] == rest;
    } else {
      SplitAfterPiece(h[1..], d, rest);
      assert (h + [d] + rest)[1..] == h[1..] + [d] + rest;
      assert [h[0]] + h[1..] == h;
    }
  }

  /** The index of the first `c` in `s`, or `|s|` when there is none. */
  function FirstIndexOf(s: string, c: char): (r: nat)
  {
    if s == [] || s[0] == c then 0 else 1 + FirstIndexOf(s[1..], c)
  }

  /** In `a + c + u` where `a` has no `c`, the first `c` is the one after `a`. */
  lemma {:induction false} FirstIndexAfterPiece(a: string, c: char, u: string)
    requires c !in a
    ensures FirstIndexOf(a + [c] + u, c) == |a|
  {
    if a != [] {
      assert (a + [c] + u)[0] == a[0];
      assert (a + [c] + u)[1..] == a[1..] + [c] + u;
      FirstIndexAfterPiece(a[1..], c, u);
    }
  }

  /** `s.replace(/from/g, to)` for single characters. */
  function ReplaceAll(s: string, from: char, to: char): (r: string)
    ensures |r| == |s|
  {
    if s == [] then []
    else [if s[0] == from then to else s[0]] + ReplaceAll(s[1..], from, to)
  }

  /** Every occurrence of `from` becomes `to`; every other character stays. */
  lemma {:induction false} ReplaceAllAt(s: string, from: char, to: char, k: nat)
    requires k < |s|
    ensures ReplaceAll(s, from, to)[k] == if s[k] == from then to else s[k]
  {
    if k > 0 {
      ReplaceAllAt(s[1..], from, to, k - 1);
    }
  }

  function DigitChar(n: nat): (r: char)
    requires n < 10
  {
    ('0' as int + n) as char
  }

  predicate IsDigit(c: char) {
    '0' <= c <= '9'
  }

  /** The decimal rendering of `n` that a template literal produces. */
  function Decimal(n: nat): (r: string)
    ensures |r| >= 1
    ensures forall k :: 0 <= k < |r| ==> IsDigit(r[k])
  {
    if n < 10 then [DigitChar(n)] else Decimal(n / 10) + [DigitChar(n % 10)]
  }

  /** Reads a string of decimal digits back as a number. */
  function DecimalValue(s: string): (r: nat)
    requires forall k :: 0 <= k < |s| ==> IsDigit(s[k])
  {
    if s == [] then 0
    else
      assert IsDigit(s[|s| - 1]);
      DecimalValue(s[..|s| - 1]) * 10 + (s[|s| - 1] as int - '0' as int)
  }

  /** Reading back the rendering of `n` gives `n`. */
  lemma {:induction false} DecimalRoundTrip(n: nat)
    ensures DecimalValue(Decimal(n)) == n
  {
    if n >= 10 {
      var s := Decimal(n);
      assert s[..|s| - 1] == Decimal(n / 10);
      DecimalRoundTrip(n / 10);
    }
  }

  /** Distinct numbers render as distinct strings. */
  lemma DecimalInjective(m: nat, n: nat)
    requires Decimal(m) == Decimal(n)
    ensures m == n
  {
    DecimalRoundTrip(m);
    DecimalRoundTrip(n);
  }
}
