/** The few Python string and list operations the modelled code relies on,
    written out with the library's semantics: `str.replace`, `str.rstrip(chars)`,
    `str.count`, `str.split(sep)`, slicing `s[0:7]`, `int(s)` and `list.reverse()`. */
module Text {
  import opened Wrappers

  predicate StartsWith(s: string, prefix: string) {
    |prefix| <= |s| && s[..|prefix|] == prefix
  }

  lemma StartsWithAppend(a: string, b: string, prefix: string)
    requires StartsWith(a, prefix)
    ensures StartsWith(a + b, prefix)
  {
    assert (a + b)[..|prefix|] == a[..|prefix|];
  }

  predicate EndsWith(s: string, suffix: string) {
    |suffix| <= |s| && s[|s| - |suffix|..] == suffix
  }

  // ---------------------------------------------------------------------------
  // str.replace(pat, rep): leftmost, non-overlapping occurrences, scanned left to right.

  function Replace(s: string, pat: string, rep: string): (r: string)
    requires |pat| > 0
    decreases |s|
  {
    if |s| < |pat| then s
    else if s[..|pat|] == pat then rep + Replace(s[|pat|..], pat, rep)
    else [s[0]] + Replace(s[1..], pat, rep)
  }

  /** Replacing a one-character pattern by text without that character leaves none of it. */
  lemma {:induction false} ReplaceRemovesChar(s: string, pat: string, rep: string)
    requires |pat| == 1 && pat[0] !in rep
    ensures pat[0] !in Replace(s, pat, rep)
    decreases |s|
  {
    if |s| >= 1 {
      if s[..1] == pat {
        ReplaceRemovesChar(s[1..], pat, rep);
      } else {
        assert s[0] != pat[0];
        ReplaceRemovesChar(s[1..], pat, rep);
      }
    }
  }

  /** A character that is neither in the text nor in the replacement is not in the result. */
  lemma {:induction false} ReplaceKeepsAbsent(s: string, pat: string, rep: string, c: char)
    requires |pat| > 0 && c !in s && c !in rep
    ensures c !in Replace(s, pat, rep)
    decreases |s|
  {
    if |s| >= |pat| {
      if s[..|pat|] == pat {
        assert forall i :: 0 <= i < |s[|pat|..]| ==> s[|pat|..][i] == s[|pat| + i];
        ReplaceKeepsAbsent(s[|pat|..], pat, rep, c);
      } else {
        ReplaceKeepsAbsent(s[1..], pat, rep, c);
      }
    }
  }

  /** A pattern whose first character does not occur is not replaced: the text is returned as is. */
  lemma {:induction false} ReplaceAbsentIsIdentity(s: string, pat: string, rep: string)
    requires |pat| > 0 && pat[0] !in s
    ensures Replace(s, pat, rep) == s
    decreases |s|
  {
    if |s| >= |pat| {
      assert s[..|pat|] != pat by { assert s[..|pat|][0] == s[0]; }
      ReplaceAbsentIsIdentity(s[1..], pat, rep);
      assert [s[0]] + s[1..] == s;
    }
  }

  /** Replacing one character by one character keeps the length. */
  lemma {:induction false} ReplaceCharKeepsLength(s: string, pat: string, rep: string)
    requires |pat| == 1 && |rep| == 1
    ensures |Replace(s, pat, rep)| == |s|
    decreases |s|
  {
    if |s| >= 1 {
      ReplaceCharKeepsLength(s[1..], pat, rep);
    }
  }

  /** With a non-empty replacement, the last character of the result is either the last
      character of the text or the last character of the replacement. */
  lemma {:induction false} ReplaceLast(s: string, pat: string, rep: string)
    requires |pat| > 0 && |s| > 0 && |rep| > 0
    ensures var r := Replace(s, pat, rep);
      |r| > 0 && (r[|r| - 1] == s[|s| - 1] || r[|r| - 1] == rep[|rep| - 1])
    decreases |s|
  {
    if |s| >= |pat| {
      if s[..|pat|] == pat {
        var rest := s[|pat|..];
        if |rest| > 0 {
          ReplaceLast(rest, pat, rep);
          assert rest[|rest| - 1] == s[|s| - 1];
        } else {
          assert Replace(rest, pat, rep) == [];
        }
      } else {
        var rest := s[1..];
        if |rest| > 0 {
          ReplaceLast(rest, pat, rep);
        } else {
          assert Replace(rest, pat, rep) == [];
        }
      }
    }
  }

  // ---------------------------------------------------------------------------
  // str.rstrip(chars): removes trailing characters that belong to the SET chars.

  function RStrip(s: string, chars: set<char>): (r: string)
    ensures |r| <= |s| && r == s[..|r|]
    ensures r == [] || r[|r| - 1] !in chars
    ensures forall i :: |r| <= i < |s| ==> s[i] in chars
    decreases |s|
  {
    if |s| > 0 && s[|s| - 1] in chars then RStrip(s[..|s| - 1], chars) else s
  }

  /** Appending characters of the set does not change what `rstrip` keeps. */
  lemma {:induction false} RStripIgnoresStrippable(p: string, q: string, chars: set<char>)
    requires forall i :: 0 <= i < |q| ==> q[i] in chars
    ensures RStrip(p + q, chars) == RStrip(p, chars)
    decreases |q|
  {
    if |q| > 0 {
      var q' := q[..|q| - 1];
      assert (p + q)[..|p + q| - 1] == p + q';
      RStripIgnoresStrippable(p, q', chars);
    } else {
      assert p + q == p;
    }
  }

  // ---------------------------------------------------------------------------
  // str.count(c) and str.split(c) for a one-character separator.

  function Count(s: string, c: char): (n: nat)
    ensures n <= |s|
    ensures n == 0 <==> c !in s
  {
    if s == [] then 0 else (if s[0] == c then 1 else 0) + Count(s[1..], c)
  }

  function Split(s: string, c: char): (parts: seq<string>)
    ensures |parts| == Count(s, c) + 1
    ensures forall i :: 0 <= i < |parts| ==> c !in parts[i]
  {
    if s == [] then [""]
    else
      var rest := Split(s[1..], c);
      if s[0] == c then [""] + rest else [[s[0]] + rest[0]] + rest[1..]
  }

  /** `c.join(parts)`, the inverse of Split. */
  function Join(parts: seq<string>, c: char): string
    requires |parts| > 0
  {
    if |parts| == 1 then parts[0] else parts[0] + [c] + Join(parts[1..], c)
  }

  lemma {:induction false} JoinSplit(s: string, c: char)
    ensures Join(Split(s, c), c) == s
  {
    if s != [] {
      var rest := Split(s[1..], c);
      JoinSplit(s[1..], c);
      if s[0] == c {
        assert Split(s, c)[1..] == rest;
      } else {
        var parts := Split(s, c);
        if |rest| == 1 {
          assert parts == [[s[0]] + rest[0]];
        } else {
          assert parts[1..] == rest[1..];
          assert Join(rest, c) == rest[0] + [c] + Join(rest[1..], c);
        }
      }
    }
  }

  lemma {:induction false} SplitWithoutSeparator(p: string, c: char)
    requires c !in p
    ensures Split(p, c) == [p]
  {
    if p != [] {
      SplitWithoutSeparator(p[1..], c);
      assert [p[0]] + p[1..] == p;
    }
  }

  lemma {:induction false} SplitAtFirstSeparator(p: string, c: char, t: string)
    requires c !in p
    ensures Split(p + [c] + t, c) == [p] + Split(t, c)
  {
    var q := p + [c] + t;
    if p == [] {
      assert q[0] == c && q[1..] == t;
    } else {
      assert q[0] == p[0] && q[1..] == p[1..] + [c] + t;
      SplitAtFirstSeparator(p[1..], c, t);
      var rest := Split(q[1..], c);
      assert rest == [p[1..]] + Split(t, c);
      assert rest[0] == p[1..] && rest[1..] == Split(t, c);
      assert Split(q, c) == [[p[0]] + rest[0]] + rest[1..];
      assert [p[0]] + p[1..] == p;
    }
  }

  /** Splitting a join of separator-free parts gives the parts back. */
  lemma {:induction false} SplitJoin(parts: seq<string>, c: char)
    requires |parts| > 0
    requires forall i :: 0 <= i < |parts| ==> c !in parts[i]
    ensures Split(Join(parts, c), c) == parts
  {
    if |parts| == 1 {
      SplitWithoutSeparator(parts[0], c);
    } else {
      SplitJoin(parts[1..], c);
      SplitAtFirstSeparator(parts[0], c, Join(parts[1..], c));
      assert [parts[0]] + parts[1..] == parts;
    }
  }

  /** `s.split(c)[0]` is the longest separator-free prefix of `s`. */
  lemma {:induction false} SplitHead(s: string, c: char)
    ensures var h := Split(s, c)[0];
      StartsWith(s, h) && c !in h && (|h| == |s| || s[|h|] == c)
  {
    if s != [] && s[0] != c {
      SplitHead(s[1..], c);
      var rest := Split(s[1..], c);
      assert Split(s, c)[0] == [s[0]] + rest[0];
      assert s == [s[0]] + s[1..];
    }
  }

  /** The first `c`-separated segment of `s` is `p` exactly when `s` is `p` or starts with `p`
      followed by `c`. */
  lemma FirstSegmentIs(s: string, c: char, p: string)
    requires c !in p
    ensures Split(s, c)[0] == p <==> s == p || StartsWith(s, p + [c])
  {
    SplitHead(s, c);
    if s == p {
      SplitWithoutSeparator(p, c);
    } else if StartsWith(s, p + [c]) {
      assert s == p + [c] + s[|p| + 1..];
      SplitAtFirstSeparator(p, c, s[|p| + 1..]);
    }
  }

  // ---------------------------------------------------------------------------
  // Slicing `s[0:7]`, which yields the whole string when it is shorter.

  function ShortId(id: string): (r: string)
    ensures |r| == if |id| < 7 then |id| else 7
    ensures StartsWith(id, r)
  {
    if |id| <= 7 then id else id[..7]
  }

  // ---------------------------------------------------------------------------
  // Python int(s) on a str: an optional sign followed by decimal digits.

  predicate IsDigit(c: char) { '0' <= c <= '9' }

  predicate IsDigits(s: string) {
    |s| > 0 && forall i :: 0 <= i < |s| ==> IsDigit(s[i])
  }

  function DigitsValue(s: string): nat
    requires forall i :: 0 <= i < |s| ==> IsDigit(s[i])
  {
    if s == [] then 0 else 10 * DigitsValue(s[..|s| - 1]) + DigitValue(s[|s| - 1])
  }

  function DigitValue(c: char): nat
    requires IsDigit(c)
  {
    (c as int) - ('0' as int)
  }

  /** The value `int(s)` returns, or None where `int(s)` raises ValueError. */
  function ParseInt(s: string): (r: Option<int>)
    ensures r.Some? <==> IsDigits(s) || (|s| > 1 && (s[0] == '+' || s[0] == '-') && IsDigits(s[1..]))
    ensures r.Some? && r.value < 0 ==> s[0] == '-'
  {
    if |s| > 0 && (s[0] == '+' || s[0] == '-') then
      if IsDigits(s[1..]) then
        var v: int := DigitsValue(s[1..]);
        Some(if s[0] == '-' then -v else v)
      else None
    else if IsDigits(s) then Some(DigitsValue(s))
    else None
  }

  // ---------------------------------------------------------------------------
  // list.reverse()

  function Reversed<T>(s: seq<T>): (r: seq<T>)
    ensures |r| == |s|
  {
    if s == [] then [] else Reversed(s[1..]) + [s[0]]
  }

  lemma {:induction false} ReversedAt<T>(s: seq<T>, k: nat)
    requires k < |s|
    ensures Reversed(s)[k] == s[|s| - 1 - k]
  {
    if k < |s| - 1 {
      ReversedAt(s[1..], k);
    }
  }

  lemma {:induction false} ReversedAppend<T>(s: seq<T>, x: T)
    ensures Reversed(s + [x]) == [x] + Reversed(s)
  {
    if s != [] {
      assert (s + [x])[1..] == s[1..] + [x];
      ReversedAppend(s[1..], x);
    } else {
      assert [x][1..] == [];
    }
  }
}
