/**
 * The fragment of Python's `str` behaviour the add-on relies on, over ASCII:
 * `isspace`, `lower`, `startswith`/`endswith`, `in`, `count`, `rfind`,
 * `strip`/`rstrip`, `replace`, `split` and slicing with clamped bounds.
 */
module PyStr {

  /** `c.isspace()` restricted to ASCII: tab, newline, vertical tab, form feed,
      carriage return, the four separator controls 0x1c-0x1f, and space. */
  predicate IsSpace(c: char) {
    c == ' ' || 9 <= c as int <= 13 || 28 <= c as int <= 31
  }

  /** `c.lower()` for ASCII letters. */
  function LowerChar(c: char): char {
    if 'A' <= c <= 'Z' then (c as int + 32) as char else c
  }

  /** `s.lower()`: same length, every character lowered. */
  function Lower(s: string): (r: string)
    ensures |r| == |s|
    ensures forall i :: 0 <= i < |s| ==> r[i] == LowerChar(s[i])
  {
    seq(|s|, i requires 0 <= i < |s| => LowerChar(s[i]))
  }

  lemma LowerIdempotent(s: string)
    ensures Lower(Lower(s)) == Lower(s)
  {
    assert forall i :: 0 <= i < |s| ==> LowerChar(LowerChar(s[i])) == LowerChar(s[i]);
  }

  /** `s[:n]` for a non-negative `n`: Python clamps the bound to the length. */
  function Take(s: string, n: nat): (r: string)
    ensures |r| == if n <= |s| then n else |s|
    ensures r <= s
  {
    if n <= |s| then s[..n] else s
  }

  /** `s.startswith(p)`. */
  predicate StartsWith(s: string, p: string) {
    |p| <= |s| && s[..|p|] == p
  }

  /** `s.endswith(p)`. */
  predicate EndsWith(s: string, p: string) {
    |p| <= |s| && s[|s| - |p|..] == p
  }

  /** `t` occurs in `s` starting at index `i`. */
  predicate MatchAt(s: string, t: string, i: int) {
    0 <= i && i + |t| <= |s| && s[i..i + |t|] == t
  }

  /** `t in s`, scanned from the left. */
  predicate Contains(s: string, t: string)
    decreases |s|
  {
    StartsWith(s, t) || (|s| > 0 && Contains(s[1..], t))
  }

  /** `t in s` holds exactly when `t` matches at some index of `s`. */
  lemma {:induction false} ContainsIffMatch(s: string, t: string)
    ensures Contains(s, t) <==> exists i :: MatchAt(s, t, i)
    decreases |s|
  {
    if StartsWith(s, t) {
      assert MatchAt(s, t, 0);
    } else if |s| == 0 {
      forall i | MatchAt(s, t, i) ensures false {
        assert false;
      }
    } else {
      ContainsIffMatch(s[1..], t);
      if Contains(s[1..], t) {
        var i :| MatchAt(s[1..], t, i);
        assert s[1..][i..i + |t|] == s[i + 1..i + 1 + |t|];
        assert MatchAt(s, t, i + 1);
      }
      forall i | MatchAt(s, t, i) ensures Contains(s[1..], t) {
        if i == 0 {
          assert false;
        }
        assert s[1..][i - 1..i - 1 + |t|] == s[i..i + |t|];
        assert MatchAt(s[1..], t, i - 1);
      }
    }
  }

  /** The empty string is in every string. */
  lemma ContainsEmpty(s: string)
    ensures Contains(s, "")
  {
    assert StartsWith(s, "");
  }

  /** `s.count(t)`: non-overlapping occurrences scanned from the left; Python
      returns `len(s) + 1` for the empty pattern. */
  function Count(s: string, t: string): nat
    decreases |s|
  {
    if |t| == 0 then |s| + 1
    else if |s| < |t| then 0
    else if StartsWith(s, t) then 1 + Count(s[|t|..], t)
    else Count(s[1..], t)
  }

  /** A string cannot contain a longer one. */
  lemma {:induction false} ContainsShorter(s: string, t: string)
    requires |s| < |t|
    ensures !Contains(s, t)
    decreases |s|
  {
    if |s| > 0 { ContainsShorter(s[1..], t); }
  }

  /** `s.count(t)` is positive exactly when `t in s`. */
  lemma {:induction false} CountPositiveIffContains(s: string, t: string)
    ensures Count(s, t) > 0 <==> Contains(s, t)
    decreases |s|
  {
    if |t| == 0 {
      ContainsEmpty(s);
    } else if |s| < |t| {
      ContainsShorter(s, t);
    } else if !StartsWith(s, t) {
      CountPositiveIffContains(s[1..], t);
    }
  }

  /** Counting in a prefix never finds more than counting in the whole string. */
  lemma {:induction false} CountPrefixMonotone(s: string, t: string, k: nat)
    requires k <= |s|
    ensures Count(s[..k], t) <= Count(s, t)
    decreases |s|
  {
    var p := s[..k];
    if |t| == 0 || |p| < |t| {
    } else if StartsWith(s, t) {
      assert p[..|t|] == s[..|t|];
      assert p[|t|..] == s[|t|..][..k - |t|];
      CountPrefixMonotone(s[|t|..], t, k - |t|);
    } else {
      assert p[..|t|] == s[..|t|];
      assert p[1..] == s[1..][..k - 1];
      CountPrefixMonotone(s[1..], t, k - 1);
    }
  }

  /** Non-overlapping occurrences fit in the string: `count * len(t) <= len(s)`. */
  lemma {:induction false} CountBound(s: string, t: string)
    requires |t| > 0
    ensures Count(s, t) * |t| <= |s|
    decreases |s|
  {
    if |s| >= |t| {
      if StartsWith(s, t) {
        CountBound(s[|t|..], t);
        MulSucc(Count(s[|t|..], t), |t|);
      } else {
        CountBound(s[1..], t);
      }
    }
  }

  /** `(c + 1) * k == c * k + k`. */
  lemma MulSucc(c: nat, k: nat)
    ensures (c + 1) * k == c * k + k
  {
  }

  /** `s.rfind(t)`: the highest index where `t` matches, or -1. */
  function RFind(s: string, t: string): int
    decreases |s|
  {
    if |s| < |t| then -1
    else if EndsWith(s, t) then |s| - |t|
    else RFind(s[..|s| - 1], t)
  }

  /** A match that does not reach the last character is a match in `s` without it. */
  lemma MatchDropLast(s: string, t: string, j: int)
    requires |s| > 0
    ensures MatchAt(s[..|s| - 1], t, j) <==> MatchAt(s, t, j) && j + |t| < |s|
  {
    if 0 <= j && j + |t| < |s| {
      assert s[..|s| - 1][j..j + |t|] == s[j..j + |t|];
    }
  }

  /** `rfind` returns -1 or an index where `t` matches. */
  lemma {:induction false} RFindMatches(s: string, t: string)
    ensures RFind(s, t) >= -1
    ensures RFind(s, t) >= 0 ==> MatchAt(s, t, RFind(s, t))
    decreases |s|
  {
    if |s| >= |t| && !EndsWith(s, t) {
      var u := s[..|s| - 1];
      RFindMatches(u, t);
      if RFind(u, t) >= 0 { MatchDropLast(s, t, RFind(u, t)); }
    }
  }

  /** No match of `t` lies to the right of what `rfind` returns. */
  lemma {:induction false} RFindRightmost(s: string, t: string, j: int)
    requires MatchAt(s, t, j)
    ensures j <= RFind(s, t)
    decreases |s|
  {
    if |s| >= |t| && !EndsWith(s, t) {
      if j + |t| == |s| {
        assert false;
      }
      MatchDropLast(s, t, j);
      RFindRightmost(s[..|s| - 1], t, j);
    }
  }

  /** `rfind` returns the rightmost match, and -1 exactly when there is none. */
  lemma RFindSpec(s: string, t: string)
    ensures RFind(s, t) >= -1
    ensures RFind(s, t) == -1 <==> !Contains(s, t)
    ensures RFind(s, t) >= 0 ==> MatchAt(s, t, RFind(s, t))
    ensures forall j :: MatchAt(s, t, j) ==> j <= RFind(s, t)
  {
    RFindMatches(s, t);
    ContainsIffMatch(s, t);
    forall j | MatchAt(s, t, j) ensures j <= RFind(s, t) {
      RFindRightmost(s, t, j);
    }
  }

  /** `s.rstrip()`: trailing whitespace removed. */
  function RStrip(s: string): string
    decreases |s|
  {
    if |s| > 0 && IsSpace(s[|s| - 1]) then RStrip(s[..|s| - 1]) else s
  }

  /** `s.lstrip()`: leading whitespace removed. */
  function LStrip(s: string): string
    decreases |s|
  {
    if |s| > 0 && IsSpace(s[0]) then LStrip(s[1..]) else s
  }

  /** `s.strip()`. */
  function Strip(s: string): string {
    LStrip(RStrip(s))
  }

  /** `rstrip` keeps a prefix, removes only whitespace, and leaves the result
      empty or ending in a non-whitespace character. */
  lemma {:induction false} RStripSpec(s: string)
    ensures RStrip(s) <= s
    ensures forall i :: |RStrip(s)| <= i < |s| ==> IsSpace(s[i])
    ensures |RStrip(s)| == 0 || !IsSpace(RStrip(s)[|RStrip(s)| - 1])
    decreases |s|
  {
    if |s| > 0 && IsSpace(s[|s| - 1]) {
      RStripSpec(s[..|s| - 1]);
    }
  }

  /** A string without trailing whitespace is its own `rstrip`. */
  lemma RStripFixed(s: string)
    requires |s| == 0 || !IsSpace(s[|s| - 1])
    ensures RStrip(s) == s
  {
  }

  /** `rstrip` is idempotent. */
  lemma RStripIdempotent(s: string)
    ensures RStrip(RStrip(s)) == RStrip(s)
  {
    RStripSpec(s);
    RStripFixed(RStrip(s));
  }

  /** `lstrip` keeps a suffix and removes only whitespace. */
  lemma {:induction false} LStripSpec(s: string)
    ensures |LStrip(s)| <= |s| && LStrip(s) == s[|s| - |LStrip(s)|..]
    ensures forall i :: 0 <= i < |s| - |LStrip(s)| ==> IsSpace(s[i])
    decreases |s|
  {
    if |s| > 0 && IsSpace(s[0]) {
      LStripSpec(s[1..]);
    }
  }

  /** `lstrip` is idempotent. */
  lemma {:induction false} LStripIdempotent(s: string)
    ensures LStrip(LStrip(s)) == LStrip(s)
    decreases |s|
  {
    if |s| > 0 && IsSpace(s[0]) {
      LStripIdempotent(s[1..]);
    }
  }

  /** `strip` is idempotent: a stripped path reads back as itself. */
  lemma StripIdempotent(s: string)
    ensures Strip(Strip(s)) == Strip(s)
  {
    var r := RStrip(s);
    RStripSpec(s);
    var l := LStrip(r);
    LStripSpec(r);
    if |l| > 0 {
      assert l[|l| - 1] == r[|r| - 1];
    }
    RStripFixed(l);
    LStripIdempotent(r);
  }

  /** A string without whitespace is its own `strip`. */
  lemma StripNoSpace(s: string)
    requires forall i :: 0 <= i < |s| ==> !IsSpace(s[i])
    ensures Strip(s) == s
  {
    RStripFixed(s);
  }

  /** `s.replace(pat, "")` for a non-empty `pat`: occurrences removed left to right. */
  function RemoveAll(s: string, pat: string): (r: string)
    requires |pat| > 0
    ensures |r| <= |s|
    decreases |s|
  {
    if |s| < |pat| then s
    else if StartsWith(s, pat) then RemoveAll(s[|pat|..], pat)
    else [s[0]] + RemoveAll(s[1..], pat)
  }

  /** Removing a pattern with a character `s` lacks leaves `s` unchanged. */
  lemma {:induction false} RemoveAllAbsent(s: string, pat: string, c: char)
    requires |pat| > 0 && c in pat && c !in s
    ensures RemoveAll(s, pat) == s
    decreases |s|
  {
    if |s| < |pat| {
    } else {
      if StartsWith(s, pat) {
        assert false;
      }
      RemoveAllAbsent(s[1..], pat, c);
      assert s == [s[0]] + s[1..];
    }
  }

  /** `s.replace(a, b)` for single characters `a` and `b`. */
  function ReplaceChar(s: string, a: char, b: char): (r: string)
    ensures |r| == |s|
    ensures forall i :: 0 <= i < |s| ==> r[i] == if s[i] == a then b else s[i]
  {
    seq(|s|, i requires 0 <= i < |s| => if s[i] == a then b else s[i])
  }

  /** `s.split(c)[0]`: the text before the first `c`, or all of `s`. */
  function BeforeFirst(s: string, c: char): (r: string)
    ensures r <= s && c !in r
    ensures c in s ==> |r| < |s| && s[|r|] == c
    ensures c !in s ==> r == s
    decreases |s|
  {
    if |s| == 0 || s[0] == c then [] else [s[0]] + BeforeFirst(s[1..], c)
  }

  /** The text after the first `c` (empty when `s` has none). */
  function AfterFirst(s: string, c: char): (r: string)
    ensures |r| < |s| || (|s| == 0 && r == [])
  {
    var b := BeforeFirst(s, c);
    if c in s then s[|b| + 1..] else []
  }

  /** `s.split(c)` for a single-character separator. */
  function Split(s: string, c: char): (r: seq<string>)
    ensures |r| >= 1
    ensures r[0] == BeforeFirst(s, c)
    decreases |s|
  {
    if c in s then [BeforeFirst(s, c)] + Split(AfterFirst(s, c), c) else [s]
  }

  /** Number of occurrences of the character `c` in `s`. */
  function CountChar(s: string, c: char): nat
    decreases |s|
  {
    if |s| == 0 then 0 else (if s[0] == c then 1 else 0) + CountChar(s[1..], c)
  }

  lemma {:induction false} CountCharAppend(a: string, b: string, c: char)
    ensures CountChar(a + b, c) == CountChar(a, c) + CountChar(b, c)
    decreases |a|
  {
    if |a| > 0 {
      assert (a + b)[1..] == a[1..] + b;
      CountCharAppend(a[1..], b, c);
    } else {
      assert a + b == b;
    }
  }

  /** `s.split(c)` has one more piece than `s` has separators. */
  lemma {:induction false} SplitLength(s: string, c: char)
    ensures |Split(s, c)| == CountChar(s, c) + 1
    decreases |s|
  {
    if c in s {
      var b := BeforeFirst(s, c);
      var a := AfterFirst(s, c);
      assert s == b + [c] + a;
      CountCharAppend(b + [c], a, c);
      CountCharAppend(b, [c], c);
      CountCharAbsent(b, c);
      SplitLength(a, c);
    } else {
      CountCharAbsent(s, c);
    }
  }

  lemma {:induction false} CountCharAbsent(s: string, c: char)
    requires c !in s
    ensures CountChar(s, c) == 0
    decreases |s|
  {
    if |s| > 0 { CountCharAbsent(s[1..], c); }
  }

  /** The characters of `s` up to its first whitespace. */
  function TakeWord(s: string): (r: string)
    ensures r <= s
    ensures forall i :: 0 <= i < |r| ==> !IsSpace(r[i])
    decreases |s|
  {
    if |s| == 0 || IsSpace(s[0]) then [] else [s[0]] + TakeWord(s[1..])
  }

  /** `s.split()[0]`: the first whitespace-separated word. */
  function FirstWord(s: string): string {
    TakeWord(LStrip(s))
  }
  /** A character that may appear in a Python identifier (ASCII letters, digits, `_`). */
  predicate IsIdentChar(c: char) {
    'a' <= c <= 'z' || 'A' <= c <= 'Z' || '0' <= c <= '9' || c == '_'
  }

  /** A non-empty run of identifier characters (dotted names are not identifiers). */
  predicate IsIdentifier(s: string) {
    |s| > 0 && forall i :: 0 <= i < |s| ==> IsIdentChar(s[i])
  }

  /** Splitting at the first `c` of `a + [c] + b`, where `a` has none, gives `a` and `b`. */
  lemma {:induction false} BeforeFirstAt(a: string, c: char, b: string)
    requires c !in a
    ensures BeforeFirst(a + [c] + b, c) == a
    ensures AfterFirst(a + [c] + b, c) == b
    decreases |a|
  {
    if |a| > 0 {
      assert (a + [c] + b)[1..] == a[1..] + [c] + b;
      BeforeFirstAt(a[1..], c, b);
    } else {
      assert a + [c] + b == [c] + b;
    }
  }

  /** The second piece of `a + c + b` split at `c`, when neither part holds `c`. */
  lemma SplitSecond(a: string, c: char, b: string)
    requires c !in a && c !in b
    ensures |Split(a + [c] + b, c)| >= 2 && Split(a + [c] + b, c)[1] == b
  {
    BeforeFirstAt(a, c, b);
    assert (a + [c] + b)[|a|] == c;
  }

  /** Removal leaves alone a prefix that lacks the pattern's first character. */
  lemma {:induction false} RemoveAllSkip(a: string, b: string, pat: string)
    requires |pat| > 0 && pat[0] !in a
    ensures RemoveAll(a + b, pat) == a + RemoveAll(b, pat)
    decreases |a|
  {
    if |a| == 0 {
      assert a + b == b;
    } else if |a + b| < |pat| {
    } else {
      var ab := a + b;
      assert ab[0] == a[0] && a[0] != pat[0];
      assert ab[..|pat|][0] == a[0];
      assert !StartsWith(ab, pat);
      assert ab[1..] == a[1..] + b;
      assert RemoveAll(ab, pat) == [a[0]] + RemoveAll(a[1..] + b, pat);
      assert pat[0] !in a[1..];
      RemoveAllSkip(a[1..], b, pat);
      assert [a[0]] + (a[1..] + RemoveAll(b, pat)) == a + RemoveAll(b, pat);
    }
  }

  /** The first word of a string that starts with a word followed by whitespace or the end. */
  lemma {:induction false} TakeWordPrefix(w: string, rest: string)
    requires forall i :: 0 <= i < |w| ==> !IsSpace(w[i])
    requires |rest| == 0 || IsSpace(rest[0])
    ensures TakeWord(w + rest) == w
    decreases |w|
  {
    if |w| > 0 {
      assert (w + rest)[1..] == w[1..] + rest;
      TakeWordPrefix(w[1..], rest);
    } else {
      assert w + rest == rest;
    }
  }

  /** Leading whitespace makes no difference to `lstrip`. */
  lemma {:induction false} LStripSpaces(p: string, s: string)
    requires forall i :: 0 <= i < |p| ==> IsSpace(p[i])
    ensures LStrip(p + s) == LStrip(s)
    decreases |p|
  {
    if |p| > 0 {
      assert (p + s)[1..] == p[1..] + s;
      LStripSpaces(p[1..], s);
    } else {
      assert p + s == s;
    }
  }
  /** A string cannot contain a text holding a character the string lacks. */
  lemma MissingCharNotContained(s: string, t: string, c: char)
    requires c in t && c !in s
    ensures !Contains(s, t)
  {
    var k :| 0 <= k < |t| && t[k] == c;
    forall i ensures !MatchAt(s, t, i) {
      if 0 <= i && i + |t| <= |s| {
        assert s[i..i + |t|][k] == s[i + k];
        assert s[i + k] in s;
      }
    }
    ContainsIffMatch(s, t);
  }
}
