/**
  Character and string helpers with the meaning Python gives them:
  `str.strip()`, `str.lower()`, string ordering by code point,
  slicing-based truncation and `', '.join(...)`.
 */
module Text {

  /** The characters Python's `str.strip()` removes (`str.isspace()`). */
  predicate IsSpace(c: char)
  {
    c == ' ' || ('\t' <= c <= '\r') || ('\U{1c}' <= c <= '\U{1f}')
    || c == '\U{85}' || c == '\U{a0}' || c == '\U{1680}'
    || ('\U{2000}' <= c <= '\U{200a}') || c == '\U{2028}' || c == '\U{2029}'
    || c == '\U{202f}' || c == '\U{205f}' || c == '\U{3000}'
  }

  /** `s.lstrip()` */
  function TrimStart(s: string): (r: string)
    ensures |r| <= |s| && r == s[|s| - |r|..]
    ensures r == [] || !IsSpace(r[0])
    ensures forall i :: 0 <= i < |s| - |r| ==> IsSpace(s[i])
  {
    if |s| > 0 && IsSpace(s[0]) then TrimStart(s[1..]) else s
  }

  /** `s.rstrip()` */
  function TrimEnd(s: string): (r: string)
    ensures |r| <= |s| && r == s[..|r|]
    ensures r == [] || !IsSpace(r[|r| - 1])
    ensures forall i :: |r| <= i < |s| ==> IsSpace(s[i])
  {
    if |s| > 0 && IsSpace(s[|s| - 1]) then TrimEnd(s[..|s| - 1]) else s
  }

  /** `s.strip()`: the longest middle slice of `s` that neither starts nor ends with whitespace. */
  function Strip(s: string): (r: string)
    ensures |r| <= |s|
    ensures (forall i :: 0 <= i < |s| ==> IsSpace(s[i])) ==> r == []
  {
    TrimEnd(TrimStart(s))
  }

  /** The result of Strip is a slice of its input with only whitespace cut off at both ends. */
  lemma StripIsSlice(s: string)
    ensures |s| - |TrimStart(s)| + |Strip(s)| <= |s|
    ensures Strip(s) == s[|s| - |TrimStart(s)|..|s| - |TrimStart(s)| + |Strip(s)|]
    ensures forall i :: 0 <= i < |s| - |TrimStart(s)| ==> IsSpace(s[i])
    ensures forall i :: |s| - |TrimStart(s)| + |Strip(s)| <= i < |s| ==> IsSpace(s[i])
  {
    var t := TrimStart(s);
    assert Strip(s) == TrimEnd(t);
    TailSpaces(s, |s| - |t|, t);
  }

  /** Whitespace cut from the end of a suffix of `s` is whitespace at the end of `s`. */
  lemma TailSpaces(s: string, lo: int, t: string)
    requires 0 <= lo <= |s| && t == s[lo..]
    ensures var r := TrimEnd(t);
      lo + |r| <= |s| && r == s[lo..lo + |r|] && forall i :: lo + |r| <= i < |s| ==> IsSpace(s[i])
  {
    var r := TrimEnd(t);
    assert r == s[lo..lo + |r|] by {
      assert s[lo..lo + |r|] == t[..|r|];
    }
    forall i | lo + |r| <= i < |s|
      ensures IsSpace(s[i])
    {
      assert s[i] == t[i - lo];
    }
  }

  /** The result of Strip neither starts nor ends with whitespace. */
  lemma StripEnds(s: string)
    ensures var r := Strip(s); r == [] || (!IsSpace(r[0]) && !IsSpace(r[|r| - 1]))
  {
    var t := TrimStart(s);
    var r := TrimEnd(t);
    if r != [] {
      assert r[0] == t[0];
    }
  }

  /** Every character of the stripped text is a character of the text, so a property all of them have survives Strip. */
  lemma StripKeeps(s: string, p: char -> bool)
    requires forall i :: 0 <= i < |s| ==> p(s[i])
    ensures forall i :: 0 <= i < |Strip(s)| ==> p(Strip(s)[i])
  {
    var t := TrimStart(s);
    var k := TrimEnd(t);
    forall i | 0 <= i < |k|
      ensures p(k[i])
    {
      assert k[i] == t[i] == s[|s| - |t| + i];
    }
  }

  /** Stripping twice is stripping once. */
  lemma StripIdempotent(s: string)
    ensures Strip(Strip(s)) == Strip(s)
  {
    var r := Strip(s);
    StripIsSlice(s);
    if r != [] {
      assert TrimStart(r) == r;
      assert TrimEnd(r) == r;
    }
  }

  /** A string with no whitespace at all is left alone by Strip. */
  lemma StripNoSpace(s: string)
    requires forall i :: 0 <= i < |s| ==> !IsSpace(s[i])
    ensures Strip(s) == s
  {
    assert TrimStart(s) == s;
  }

  /**
    `c.lower()` for the letters the column synonyms use: ASCII and the
    upper-case letters of Latin-1 (U+00C0..U+00DE, except the sign U+00D7).
   */
  function LowerChar(c: char): (r: char)
    ensures !('A' <= r <= 'Z')
    ensures 'A' <= c <= 'Z' ==> 'a' <= r <= 'z'
  {
    if 'A' <= c <= 'Z' || ('À' <= c <= 'Þ' && c != '×')
    then (c as int + 32) as char
    else c
  }

  function Lower(s: string): (r: string)
    ensures |r| == |s|
    ensures forall i :: 0 <= i < |s| ==> r[i] == LowerChar(s[i])
  {
    seq(|s|, i requires 0 <= i < |s| => LowerChar(s[i]))
  }

  /** Lower-casing is idempotent: `s.lower().lower() == s.lower()`. */
  lemma LowerIdempotent(s: string)
    ensures Lower(Lower(s)) == Lower(s)
  {
  }

  /** Python's `a < b` on strings: lexicographic order of code points, a proper prefix first. */
  predicate StrLess(a: string, b: string)
  {
    if |a| == 0 then |b| > 0
    else if |b| == 0 then false
    else if a[0] == b[0] then StrLess(a[1..], b[1..])
    else a[0] < b[0]
  }

  lemma {:induction false} StrLessIrreflexive(a: string)
    ensures !StrLess(a, a)
  {
    if |a| > 0 {
      StrLessIrreflexive(a[1..]);
    }
  }

  lemma {:induction false} StrLessTransitive(a: string, b: string, c: string)
    requires StrLess(a, b) && StrLess(b, c)
    ensures StrLess(a, c)
  {
    if |a| > 0 && |b| > 0 && |c| > 0 && a[0] == b[0] && b[0] == c[0] {
      StrLessTransitive(a[1..], b[1..], c[1..]);
    }
  }

  /** Exactly one of a < b, a == b, b < a holds. */
  lemma {:induction false} StrLessTrichotomy(a: string, b: string)
    ensures StrLess(a, b) || a == b || StrLess(b, a)
    ensures !(StrLess(a, b) && StrLess(b, a))
  {
    if |a| > 0 && |b| > 0 && a[0] == b[0] {
      StrLessTrichotomy(a[1..], b[1..]);
      if a[1..] == b[1..] {
        assert a == [a[0]] + a[1..] && b == [b[0]] + b[1..];
      }
    }
  }

  /**
    `s[:n] + "..." if len(s) > n else s`: the display form of a label cut
    to `n` characters.
   */
  function Truncate(s: string, n: nat): (r: string)
    ensures |s| <= n ==> r == s
    ensures |s| > n ==> |r| == n + 3 && r[..n] == s[..n] && r[n..] == "..."
  {
    if |s| > n then s[..n] + "..." else s
  }

  /**
    A truncated label never exceeds the limit plus the three dots, but the
    cut does not always shorten it: a label one or two characters over the
    limit comes out longer than it went in (with `n = 25`, 26 or 27
    characters become 28), one exactly three over keeps its length, and
    only a longer one gets shorter.
   */
  lemma TruncateBounds(s: string, n: nat)
    ensures |Truncate(s, n)| <= n + 3
    ensures |Truncate(s, n)| > |s| <==> n < |s| < n + 3
    ensures |Truncate(s, n)| < |s| <==> |s| > n + 3
  {
  }

  /** `sep.join(parts)` */
  function Join(parts: seq<string>, sep: string): (r: string)
    ensures |parts| == 0 ==> r == ""
    ensures |parts| == 1 ==> r == parts[0]
  {
    if |parts| == 0 then ""
    else if |parts| == 1 then parts[0]
    else parts[0] + sep + Join(parts[1..], sep)
  }

  /** Joining one more part appends the separator and that part. */
  lemma {:induction false} JoinSnoc(parts: seq<string>, p: string, sep: string)
    requires |parts| > 0
    ensures Join(parts + [p], sep) == Join(parts, sep) + sep + p
  {
    if |parts| > 1 {
      assert (parts + [p])[1..] == parts[1..] + [p];
      JoinSnoc(parts[1..], p, sep);
    }
  }

  /** `x` occurs in `s` starting at position `k`. */
  predicate OccursAt(s: string, x: string, k: int)
  {
    0 <= k <= |s| - |x| && s[k..k + |x|] == x
  }

  /** `x` occurs in `s` as a contiguous piece (`x in s` on strings). */
  predicate Contains(s: string, x: string)
  {
    exists k :: 0 <= k <= |s| && OccursAt(s, x, k)
  }

  /** A piece of either half is a piece of the whole. */
  lemma ContainsConcat(a: string, b: string, x: string)
    ensures Contains(a, x) || Contains(b, x) ==> Contains(a + b, x)
  {
    if Contains(a, x) {
      var k :| 0 <= k <= |a| && OccursAt(a, x, k);
      assert (a + b)[k..k + |x|] == a[k..k + |x|];
      assert OccursAt(a + b, x, k);
    } else if Contains(b, x) {
      var k :| 0 <= k <= |b| && OccursAt(b, x, k);
      assert (a + b)[|a| + k..|a| + k + |x|] == b[k..k + |x|];
      assert OccursAt(a + b, x, |a| + k);
    }
  }

  /** Every part appears in the joined text. */
  lemma {:induction false} JoinContains(parts: seq<string>, sep: string, i: int)
    requires 0 <= i < |parts|
    ensures Contains(Join(parts, sep), parts[i])
  {
    if |parts| == 1 {
      assert OccursAt(Join(parts, sep), parts[0], 0);
    } else if i == 0 {
      assert (parts[0] + sep + Join(parts[1..], sep))[0..|parts[0]|] == parts[0];
      assert OccursAt(Join(parts, sep), parts[0], 0);
    } else {
      JoinContains(parts[1..], sep, i - 1);
      ContainsConcat(parts[0] + sep, Join(parts[1..], sep), parts[i]);
    }
  }
}
