/**
 * The JavaScript string operations the generator calls, with the exact
 * semantics it relies on: `replace` with a string pattern replaces only
 * the first occurrence, `split` keeps empty pieces, `join` puts the
 * separator between pieces only, `trim` drops white space at both ends.
 * Case mapping is the ASCII subset of `toUpperCase`/`toLowerCase`.
 */
module Strings {

  import opened Js

  // ---------------------------------------------------------------------
  // Case mapping

  function UpperChar(c: char): char
  {
    if 'a' <= c <= 'z' then (c as int - 32) as char else c
  }

  function LowerChar(c: char): char
  {
    if 'A' <= c <= 'Z' then (c as int + 32) as char else c
  }

  /** `s.toUpperCase()`. */
  function Upper(s: string): (r: string)
    ensures |r| == |s|
    ensures forall i :: 0 <= i < |s| ==> r[i] == UpperChar(s[i])
  {
    if s == [] then [] else [UpperChar(s[0])] + Upper(s[1..])
  }

  /** `s.toLowerCase()`. */
  function Lower(s: string): (r: string)
    ensures |r| == |s|
    ensures forall i :: 0 <= i < |s| ==> r[i] == LowerChar(s[i])
  {
    if s == [] then [] else [LowerChar(s[0])] + Lower(s[1..])
  }

  /** Upper-casing twice is upper-casing once. */
  lemma UpperIdempotent(s: string)
    ensures Upper(Upper(s)) == Upper(s)
  {
    assert forall i :: 0 <= i < |s| ==> UpperChar(UpperChar(s[i])) == UpperChar(s[i]);
  }

  /** `s.charAt(0).toUpperCase() + s.substring(1)`. */
  function CapitalizeFirst(s: string): (r: string)
    ensures |r| == |s|
    ensures |s| > 0 ==> r[0] == UpperChar(s[0]) && r[1..] == s[1..]
  {
    if s == [] then "" else [UpperChar(s[0])] + s[1..]
  }

  // ---------------------------------------------------------------------
  // Prefixes and white space

  predicate StartsWith(s: string, prefix: string)
  {
    |prefix| <= |s| && s[..|prefix|] == prefix
  }

  /** The characters `String.prototype.trim` removes. */
  predicate IsSpace(c: char)
  {
    c == ' ' || c == '\t' || c == '\n' || c == '\r' || c == '\U{000B}' || c == '\U{000C}'
    || c == '\U{00A0}' || c == '\U{1680}' || ('\U{2000}' <= c <= '\U{200A}')
    || c == '\U{2028}' || c == '\U{2029}' || c == '\U{202F}' || c == '\U{205F}'
    || c == '\U{3000}' || c == '\U{FEFF}'
  }

  /** Every character of `t` is white space. */
  predicate AllSpace(t: string)
  {
    forall j :: 0 <= j < |t| ==> IsSpace(t[j])
  }

  function TrimStart(s: string): (r: string)
    ensures |r| > 0 ==> !IsSpace(r[0])
    ensures |r| <= |s| && r == s[|s| - |r|..] && AllSpace(s[..|s| - |r|])
  {
    if s != [] && IsSpace(s[0]) then
      var r := TrimStart(s[1..]);
      assert s[..|s| - |r|] == [s[0]] + s[1..][..|s| - 1 - |r|];
      r
    else
      s
  }

  function TrimEnd(s: string): (r: string)
    ensures |r| > 0 ==> !IsSpace(r[|r| - 1])
    ensures |r| <= |s| && r == s[..|r|] && AllSpace(s[|r|..])
  {
    if s != [] && IsSpace(s[|s| - 1]) then
      var p := s[..|s| - 1];
      var r := TrimEnd(p);
      assert s[|r|..] == p[|r|..] + [s[|s| - 1]];
      r
    else
      s
  }

  /** `s.trim()`: neither starts nor ends with white space. */
  function Trim(s: string): (r: string)
    ensures |r| > 0 ==> !IsSpace(r[0]) && !IsSpace(r[|r| - 1])
  {
    var e := TrimEnd(s);
    var r := TrimStart(e);
    assert |r| > 0 ==> r[|r| - 1] == e[|e| - 1];
    r
  }

  /** `s.trim()` removes only white space, and only at the two ends. */
  lemma TrimIsSlice(s: string)
    ensures var r := Trim(s);
      exists a :: 0 <= a <= |s| - |r| && r == s[a..a + |r|] && AllSpace(s[..a]) && AllSpace(s[a + |r|..])
  {
    var e := TrimEnd(s);
    var r := TrimStart(e);
    var a := |e| - |r|;
    assert r == s[a..a + |r|];
    assert s[..a] == e[..a];
  }

  // ---------------------------------------------------------------------
  // replace (string pattern: first occurrence only)

  predicate OccursAt(s: string, pat: string, i: int)
  {
    0 <= i && i + |pat| <= |s| && s[i..i + |pat|] == pat
  }

  /** Where `s.indexOf(pat)` finds the pattern; `None` stands for -1. */
  function IndexOf(s: string, pat: string): (r: Option<nat>)
    ensures r.Some? ==> r.value + |pat| <= |s|
    decreases |s|
  {
    if |s| < |pat| then None
    else if s[..|pat|] == pat then Some(0)
    else match IndexOf(s[1..], pat)
      case None => None
      case Some(i) => Some(i + 1)
  }

  /** `IndexOf` finds the first occurrence, and finds none only when there is none. */
  lemma {:induction false} IndexOfIsFirst(s: string, pat: string)
    ensures IndexOf(s, pat).None? ==> forall i :: !OccursAt(s, pat, i)
    ensures IndexOf(s, pat).Some? ==> OccursAt(s, pat, IndexOf(s, pat).value)
    ensures IndexOf(s, pat).Some? ==> forall j :: 0 <= j < IndexOf(s, pat).value ==> !OccursAt(s, pat, j)
    decreases |s|
  {
    if |s| < |pat| {
    } else if s[..|pat|] == pat {
    } else {
      var t := s[1..];
      IndexOfIsFirst(t, pat);
      forall i | 1 <= i
        ensures OccursAt(s, pat, i) <==> OccursAt(t, pat, i - 1)
      {
        if i + |pat| <= |s| {
          assert t[i - 1..i - 1 + |pat|] == s[i..i + |pat|];
        }
      }
      assert !OccursAt(s, pat, 0);
    }
  }

  /** A pattern holding a character the text lacks never occurs in it. */
  lemma NoOccurrence(s: string, pat: string, c: char)
    requires c in pat && c !in s
    ensures IndexOf(s, pat).None?
  {
    IndexOfIsFirst(s, pat);
  }

  /** A pattern that does not start anywhere inside the text before it
      is found right after that text. */
  lemma FoundFirst(pre: string, pat: string, post: string)
    requires forall k :: 0 <= k < |pre| ==> !OccursAt(pre + pat + post, pat, k)
    ensures IndexOf(pre + pat + post, pat) == Some(|pre|)
  {
    var s := pre + pat + post;
    IndexOfIsFirst(s, pat);
    assert OccursAt(s, pat, |pre|) by {
      assert s[|pre|..|pre| + |pat|] == pat;
    }
  }

  /** A pattern whose first character the text before it lacks is found
      right after that text. */
  lemma FoundAfter(pre: string, pat: string, post: string)
    requires |pat| > 0 && pat[0] !in pre
    ensures IndexOf(pre + pat + post, pat) == Some(|pre|)
  {
    var s := pre + pat + post;
    forall j | 0 <= j < |pre| ensures !OccursAt(s, pat, j) {
      assert s[j] == pre[j];
    }
    FoundFirst(pre, pat, post);
  }

  /** `s.replace(pat, rep)` with a string pattern: only the first
      occurrence is replaced, and nothing changes when there is none. */
  function ReplaceFirst(s: string, pat: string, rep: string): (r: string)
    ensures IndexOf(s, pat).None? ==> r == s
    ensures IndexOf(s, pat).Some? ==>
      var i := IndexOf(s, pat).value; r == s[..i] + rep + s[i + |pat|..]
    decreases |s|
  {
    if |s| < |pat| then s
    else if s[..|pat|] == pat then rep + s[|pat|..]
    else
      var rest := ReplaceFirst(s[1..], pat, rep);
      match IndexOf(s[1..], pat)
      case None =>
        assert IndexOf(s, pat).None?;
        assert s == [s[0]] + s[1..];
        [s[0]] + rest
      case Some(i) =>
        assert IndexOf(s, pat) == Some(i + 1);
        ConsReplace(s, i, |pat|, rep, rest);
        [s[0]] + rest
  }

  /** Replacing inside the tail of a text is replacing one index further on
      in the text. */
  lemma ConsReplace(s: string, i: nat, k: nat, rep: string, rest: string)
    requires i + 1 + k <= |s|
    requires rest == s[1..][..i] + rep + s[1..][i + k..]
    ensures [s[0]] + rest == s[..i + 1] + rep + s[i + 1 + k..]
  {
    assert s[..i + 1] == [s[0]] + s[1..][..i];
    assert s[i + 1 + k..] == s[1..][i + k..];
  }

  // split and join

  /** `parts.join(sep)`. */
  function Join(parts: seq<string>, sep: string): string
  {
    if |parts| == 0 then ""
    else if |parts| == 1 then parts[0]
    else parts[0] + sep + Join(parts[1..], sep)
  }

  /** Joining two non-empty lists puts one separator between their joins. */
  lemma {:induction false} JoinAppend(a: seq<string>, b: seq<string>, sep: string)
    requires |a| > 0 && |b| > 0
    ensures Join(a + b, sep) == Join(a, sep) + sep + Join(b, sep)
  {
    if |a| == 1 {
      assert (a + b)[1..] == b;
    } else {
      assert (a + b)[1..] == a[1..] + b;
      JoinAppend(a[1..], b, sep);
    }
  }

  /** The join ends with the last piece. */
  lemma JoinLast(parts: seq<string>, sep: string)
    requires |parts| > 1
    ensures Join(parts, sep) == Join(parts[..|parts| - 1], sep) + sep + parts[|parts| - 1]
  {
    assert parts == parts[..|parts| - 1] + [parts[|parts| - 1]];
    JoinAppend(parts[..|parts| - 1], [parts[|parts| - 1]], sep);
  }

  predicate EndsWith(s: string, suffix: string)
  {
    |suffix| <= |s| && s[|s| - |suffix|..] == suffix
  }

  /** What is appended last is a suffix. */
  lemma EndsWithAppend(s: string, a: string, b: string)
    ensures EndsWith(s + a + b, a + b)
  {
    assert (s + a + b)[|s|..] == a + b;
  }

  /** `s.split(sep)` for a one-character separator: the pieces between
      separators, empty pieces included, which join back into `s`. */
  function Split(s: string, sep: char): (parts: seq<string>)
    ensures |parts| >= 1
    ensures forall i :: 0 <= i < |parts| ==> sep !in parts[i]
    ensures Join(parts, [sep]) == s
  {
    if s == [] then [""]
    else if s[0] == sep then
      var rest := Split(s[1..], sep);
      assert Join([""] + rest, [sep]) == "" + [sep] + Join(rest, [sep]);
      assert s == [sep] + s[1..];
      [""] + rest
    else
      var rest := Split(s[1..], sep);
      var parts := [[s[0]] + rest[0]] + rest[1..];
      assert parts[1..] == rest[1..];
      assert s == [s[0]] + s[1..];
      if |rest| == 1 then
        assert Join(parts, [sep]) == [s[0]] + rest[0];
        parts
      else
        assert Join(rest, [sep]) == rest[0] + [sep] + Join(rest[1..], [sep]);
        assert Join(parts, [sep]) == [s[0]] + rest[0] + [sep] + Join(rest[1..], [sep]);
        parts
  }

  /** `s.split(sep)[0]`: the text before the first separator. */
  function FirstSegment(s: string, sep: char): (r: string)
    ensures sep !in r
    ensures r == s || (|r| < |s| && s[..|r|] == r && s[|r|] == sep)
  {
    var parts := Split(s, sep);
    if |parts| == 1 then parts[0]
    else
      assert s == parts[0] + [sep] + Join(parts[1..], [sep]);
      assert s[..|parts[0]|] == parts[0];
      parts[0]
  }

  /** `tokens[tokens.length - 1]` with `tokens = s.split(sep)`. */
  function LastSegment(s: string, sep: char): (r: string)
  {
    var parts := Split(s, sep);
    parts[|parts| - 1]
  }

  lemma {:induction false} JoinSuffix(parts: seq<string>, sep: string)
    requires |parts| >= 1
    ensures exists k :: 0 <= k <= |Join(parts, sep)| && Join(parts, sep)[k..] == parts[|parts| - 1]
  {
    if |parts| == 1 {
      assert Join(parts, sep)[0..] == parts[0];
    } else {
      JoinSuffix(parts[1..], sep);
      var j := Join(parts[1..], sep);
      var k :| 0 <= k <= |j| && j[k..] == parts[1..][|parts| - 2];
      var pre := parts[0] + sep;
      assert Join(parts, sep) == pre + j;
      assert (pre + j)[|pre| + k..] == j[k..];
    }
  }

  /** The last segment contains no separator and ends the string. */
  lemma LastSegmentIsSuffix(s: string, sep: char)
    ensures sep !in LastSegment(s, sep)
    ensures exists k :: 0 <= k <= |s| && s[k..] == LastSegment(s, sep)
  {
    JoinSuffix(Split(s, sep), [sep]);
  }

  /** Appending separator-free text to a string extends its last segment. */
  lemma {:induction false} SplitAppend(s: string, t: string, sep: char)
    requires sep !in t
    ensures var p := Split(s, sep);
      Split(s + t, sep) == p[..|p| - 1] + [p[|p| - 1] + t]
    decreases |s|
  {
    if s == [] {
      assert s + t == t;
      SplitNoSeparator(t, sep);
    } else {
      assert (s + t)[1..] == s[1..] + t;
      SplitAppend(s[1..], t, sep);
      var p := Split(s, sep);
      var r := Split(s[1..], sep);
      if s[0] == sep {
        assert p == [""] + r;
      } else {
        assert p == [[s[0]] + r[0]] + r[1..];
      }
    }
  }

  /** A separator-free head is the first piece. */
  lemma {:induction false} SplitAtFirst(a: string, t: string, sep: char)
    requires sep !in a
    ensures Split(a + [sep] + t, sep) == [a] + Split(t, sep)
    decreases |a|
  {
    if a == [] {
      assert a + [sep] + t == [sep] + t;
      assert ([sep] + t)[1..] == t;
    } else {
      assert (a + [sep] + t)[1..] == a[1..] + [sep] + t;
      SplitAtFirst(a[1..], t, sep);
      assert a == [a[0]] + a[1..];
    }
  }

  /** A rooted two-segment path splits into an empty head and its segments. */
  lemma SplitTwoSegments(a: string, b: string, sep: char)
    requires sep !in a && sep !in b
    ensures Split([sep] + a + [sep] + b, sep) == ["", a, b]
  {
    var tail := a + [sep] + b;
    SplitNoSeparator(b, sep);
    SplitAtFirst(a, b, sep);
    assert Split(tail, sep) == [a, b];
    SplitAtFirst("", tail, sep);
    assert [sep] + a + [sep] + b == "" + [sep] + tail;
  }

  lemma {:induction false} SplitNoSeparator(t: string, sep: char)
    requires sep !in t
    ensures Split(t, sep) == [t]
  {
    if t != [] {
      SplitNoSeparator(t[1..], sep);
      assert t == [t[0]] + t[1..];
    }
  }

  /** Lower-casing commutes with splitting at a character that is not a
      letter. */
  lemma {:induction false} SplitLower(s: string, sep: char)
    requires !('A' <= sep <= 'Z') && !('a' <= sep <= 'z')
    ensures |Split(Lower(s), sep)| == |Split(s, sep)|
    ensures forall i :: 0 <= i < |Split(s, sep)| ==> Split(Lower(s), sep)[i] == Lower(Split(s, sep)[i])
    decreases |s|
  {
    if s != [] {
      SplitLower(s[1..], sep);
      var l := Lower(s);
      assert l[1..] == Lower(s[1..]);
      var r := Split(s[1..], sep);
      if s[0] != sep {
        assert l[0] != sep;
        assert Lower([s[0]] + r[0]) == [l[0]] + Lower(r[0]);
      }
    }
  }

  /** The last segment of a lower-cased text is the lower-cased last
      segment. */
  lemma {:induction false} LastSegmentLower(s: string, sep: char)
    requires !('A' <= sep <= 'Z') && !('a' <= sep <= 'z')
    ensures LastSegment(Lower(s), sep) == Lower(LastSegment(s, sep))
  {
    SplitLowerLast(s, sep);
    LastOfLoweredSplit(s, Lower(s), sep);
  }

  lemma LastOfLoweredSplit(s: string, t: string, sep: char)
    requires |Split(t, sep)| == |Split(s, sep)|
    requires Split(t, sep)[|Split(s, sep)| - 1] == Lower(Split(s, sep)[|Split(s, sep)| - 1])
    ensures LastSegment(t, sep) == Lower(LastSegment(s, sep))
  {
    LastSegmentIsLast(s, sep);
    LastSegmentIsLast(t, sep);
  }

  lemma LastSegmentIsLast(s: string, sep: char)
    ensures LastSegment(s, sep) == Split(s, sep)[|Split(s, sep)| - 1]
  {
  }

  lemma SplitLowerLast(s: string, sep: char)
    requires !('A' <= sep <= 'Z') && !('a' <= sep <= 'z')
    ensures |Split(Lower(s), sep)| == |Split(s, sep)|
    ensures Split(Lower(s), sep)[|Split(s, sep)| - 1] == Lower(Split(s, sep)[|Split(s, sep)| - 1])
  {
    SplitLower(s, sep);
  }

  lemma LastSegmentAppend(s: string, t: string, sep: char)
    requires sep !in t
    ensures LastSegment(s + t, sep) == LastSegment(s, sep) + t
  {
    SplitAppend(s, t, sep);
  }

  // ---------------------------------------------------------------------
  // Numbers as text

  predicate IsDigit(c: char)
  {
    '0' <= c <= '9'
  }

  function DigitChar(d: nat): char
    requires d < 10
  {
    ('0' as int + d) as char
  }

  /** The decimal text of a non-negative integer, as `'' + n` gives it. */
  function NatToString(n: nat): (r: string)
    ensures |r| > 0
    ensures forall i :: 0 <= i < |r| ==> IsDigit(r[i])
  {
    if n < 10 then [DigitChar(n)] else NatToString(n / 10) + [DigitChar(n % 10)]
  }

  /** `Number(s)` for the texts the model admits: a run of decimal digits,
      the empty text (which JavaScript reads as 0); anything else is NaN. */
  function DecimalValue(s: string): (r: Option<nat>)
  {
    if s == [] then Some(0)
    else if !IsDigit(s[|s| - 1]) then None
    else match DecimalValue(s[..|s| - 1])
      case None => None
      case Some(v) => Some(10 * v + (s[|s| - 1] as int - '0' as int))
  }

  /** Printing a number and reading it back gives the number. */
  lemma {:induction false} DecimalRoundTrip(n: nat)
    ensures DecimalValue(NatToString(n)) == Some(n)
  {
    if n >= 10 {
      DecimalRoundTrip(n / 10);
      var s := NatToString(n);
      assert s[..|s| - 1] == NatToString(n / 10);
    } else {
      assert NatToString(n)[..0] == [];
    }
  }

  /** `' '.repeat(n)`. */
  function Spaces(n: nat): (r: string)
    ensures |r| == n
    ensures forall i :: 0 <= i < n ==> r[i] == ' '
  {
    if n == 0 then "" else " " + Spaces(n - 1)
  }

  // ---------------------------------------------------------------------
  // .replace(/\\n/g, "")

  /** Removes, left to right, every backslash immediately followed by `n`. */
  function StripNewlineEscapes(s: string): (r: string)
    ensures |r| <= |s|
    ensures '\\' !in s ==> r == s
  {
    if |s| < 2 then s
    else if s[0] == '\\' && s[1] == 'n' then StripNewlineEscapes(s[2..])
    else [s[0]] + StripNewlineEscapes(s[1..])
  }

  predicate HasPair(s: string, a: char, b: char)
  {
    exists i :: 0 <= i < |s| - 1 && s[i] == a && s[i + 1] == b
  }

  lemma {:induction false} StripKeepsHead(t: string)
    requires |t| > 0 && t[0] != '\\'
    ensures |StripNewlineEscapes(t)| > 0 && StripNewlineEscapes(t)[0] == t[0]
  {
  }

  /** Unless the text holds an escaped backslash (two backslashes in a
      row), no `\n` escape survives the removal. */
  lemma {:induction false} StripRemovesEscapes(s: string)
    requires !HasPair(s, '\\', '\\')
    ensures !HasPair(StripNewlineEscapes(s), '\\', 'n')
    decreases |s|
  {
    if |s| >= 2 {
      if s[0] == '\\' && s[1] == 'n' {
        StripRemovesEscapes(s[2..]);
      } else {
        StripRemovesEscapes(s[1..]);
        if s[0] == '\\' {
          StripKeepsHead(s[1..]);
        }
      }
    }
  }

  /** An escaped backslash followed by `n` turns into a `\n` escape. */
  lemma StripCanCreateEscape()
    ensures StripNewlineEscapes("\\\\nn") == "\\n"
  {
  }
}
