/**
 * The JavaScript string operations the workspace relies on (`startsWith`, `endsWith`, `includes`,
 * `toLowerCase`, `trim`, `replace` with a string pattern, `split` on one character, `join`, and the
 * decimal rendering of a number in a template literal), each with the property that pins it down.
 */
module Strings {

  predicate StartsWith(s: string, prefix: string)
  {
    |prefix| <= |s| && s[..|prefix|] == prefix
  }

  predicate EndsWith(s: string, suffix: string)
  {
    |suffix| <= |s| && s[|s| - |suffix|..] == suffix
  }

  /** `sub` occurs in `s` starting at index `i`. */
  predicate OccursAt(s: string, sub: string, i: nat)
  {
    i + |sub| <= |s| && s[i..i + |sub|] == sub
  }

  /** `s.includes(sub)`. */
  predicate Contains(s: string, sub: string)
  {
    exists i: nat | i <= |s| :: OccursAt(s, sub, i)
  }

  /** The first index at or after `from` where `sub` occurs, or -1 (`s.indexOf(sub, from)`). */
  function IndexOfFrom(s: string, sub: string, from: nat): (r: int)
    decreases |s| - from
    ensures r == -1 || from <= r
    ensures r == -1 ==> forall j: nat :: from <= j ==> !OccursAt(s, sub, j)
    ensures r != -1 ==> OccursAt(s, sub, r) && forall j: nat :: from <= j < r ==> !OccursAt(s, sub, j)
  {
    if from + |sub| > |s| then -1
    else if s[from..from + |sub|] == sub then from
    else IndexOfFrom(s, sub, from + 1)
  }

  function IndexOf(s: string, sub: string): (r: int)
    ensures r == -1 <==> !Contains(s, sub)
    ensures r == -1 || (0 <= r && OccursAt(s, sub, r) && forall j: nat :: j < r ==> !OccursAt(s, sub, j))
  {
    IndexOfFrom(s, sub, 0)
  }

  /** A string that lacks one of the characters of `sub` cannot contain `sub`. */
  lemma MissingCharExcludes(s: string, sub: string, k: nat)
    requires k < |sub| && sub[k] !in s
    ensures !Contains(s, sub)
  {
  }

  /** Every string includes the empty string. */
  lemma ContainsEmpty(s: string)
    ensures Contains(s, "")
  {
    assert OccursAt(s, "", 0);
  }

  /** A string occurring inside a part of a concatenation occurs inside the concatenation. */
  lemma ContainsInConcat(a: string, b: string, c: string, sub: string)
    requires Contains(b, sub)
    ensures Contains(a + b + c, sub)
  {
    var i: nat :| i <= |b| && OccursAt(b, sub, i);
    assert (a + b + c)[|a| + i..|a| + i + |sub|] == b[i..i + |sub|];
    assert OccursAt(a + b + c, sub, |a| + i);
  }

  // ---------------------------------------------------------------- case

  /** `toLowerCase` on one character, for the ASCII letters. */
  function LowerChar(c: char): char
  {
    if 'A' <= c <= 'Z' then (c as int + 32) as char else c
  }

  function ToLower(s: string): (r: string)
    ensures |r| == |s|
    ensures forall i :: 0 <= i < |s| ==> r[i] == LowerChar(s[i])
  {
    seq(|s|, i requires 0 <= i < |s| => LowerChar(s[i]))
  }

  predicate IsLower(s: string)
  {
    forall i :: 0 <= i < |s| ==> !('A' <= s[i] <= 'Z')
  }

  /** Lower-casing leaves no upper-case letter and changes nothing already lower-case. */
  lemma ToLowerNormalises(s: string)
    ensures IsLower(ToLower(s))
    ensures IsLower(s) ==> ToLower(s) == s
    ensures ToLower(ToLower(s)) == ToLower(s)
  {
  }

  // ---------------------------------------------------------------- trim

  /** The characters `String.prototype.trim` removes: WhiteSpace and LineTerminator of ECMAScript. */
  predicate IsWhiteSpace(c: char)
  {
    || c == ' ' || c == '\t' || c == '\n' || c == '\r' || c == '\U{000B}' || c == '\U{000C}'
    || c == '\U{00A0}' || c == '\U{FEFF}' || c == '\U{1680}' || ('\U{2000}' <= c <= '\U{200A}')
    || c == '\U{2028}' || c == '\U{2029}' || c == '\U{202F}' || c == '\U{205F}' || c == '\U{3000}'
  }

  predicate AllWhiteSpace(s: string)
  {
    forall i :: 0 <= i < |s| ==> IsWhiteSpace(s[i])
  }

  /** The number of white-space characters `s` starts with. */
  function LeadingWhiteSpace(s: string): (n: nat)
    ensures n <= |s| && AllWhiteSpace(s[..n])
    ensures n == |s| || !IsWhiteSpace(s[n])
  {
    if |s| > 0 && IsWhiteSpace(s[0]) then
      var n := 1 + LeadingWhiteSpace(s[1..]);
      assert s[..n] == [s[0]] + s[1..][..n - 1];
      n
    else 0
  }

  /** The number of white-space characters `s` ends with. */
  function TrailingWhiteSpace(s: string): (n: nat)
    ensures n <= |s| && AllWhiteSpace(s[|s| - n..])
    ensures n == |s| || !IsWhiteSpace(s[|s| - n - 1])
  {
    if |s| > 0 && IsWhiteSpace(s[|s| - 1]) then
      var n := 1 + TrailingWhiteSpace(s[..|s| - 1]);
      assert s[|s| - n..] == s[..|s| - 1][|s| - n..] + [s[|s| - 1]];
      n
    else 0
  }

  /** `s.trim()`: the input is the result with only white space around it. */
  function Trim(s: string): (r: string)
    ensures exists a: nat, b: nat :: a <= b <= |s| && r == s[a..b] && AllWhiteSpace(s[..a]) && AllWhiteSpace(s[b..])
    ensures r == [] || (!IsWhiteSpace(r[0]) && !IsWhiteSpace(r[|r| - 1]))
  {
    var a := LeadingWhiteSpace(s);
    var t := TrailingWhiteSpace(s[a..]);
    var b := |s| - t;
    assert s[a..][|s| - a - t..] == s[b..];
    var r := s[a..b];
    assert r != [] ==> r[0] == s[a] && r[|r| - 1] == s[a..][|s| - a - t - 1];
    assert a <= b <= |s| && r == s[a..b] && AllWhiteSpace(s[..a]) && AllWhiteSpace(s[b..]);
    r
  }

  /** `s.trim() === ''` exactly when every character of `s` is white space. */
  lemma TrimEmptyIff(s: string)
    ensures Trim(s) == [] <==> AllWhiteSpace(s)
  {
    var a := LeadingWhiteSpace(s);
    var t := TrailingWhiteSpace(s[a..]);
    assert Trim(s) == s[a..|s| - t];
    if AllWhiteSpace(s) {
      LeadingStopsAtEnd(s);
    } else {
      assert s[..|s|] == s;
      assert s[a..][0] == s[a];
      TrailingStopsBeforeStart(s[a..]);
    }
  }

  /** A string of white space only is skipped as a whole. */
  lemma {:induction false} LeadingStopsAtEnd(s: string)
    requires AllWhiteSpace(s)
    ensures LeadingWhiteSpace(s) == |s|
  {
    if |s| > 0 {
      assert AllWhiteSpace(s[1..]) by {
        forall i | 0 <= i < |s| - 1 ensures IsWhiteSpace(s[1..][i]) {
          assert s[1..][i] == s[i + 1];
        }
      }
      LeadingStopsAtEnd(s[1..]);
    }
  }

  /** Trailing white space never reaches a non-white first character. */
  lemma {:induction false} TrailingStopsBeforeStart(u: string)
    requires |u| > 0 && !IsWhiteSpace(u[0])
    ensures TrailingWhiteSpace(u) < |u|
  {
    if |u| > 1 {
      assert u[..|u| - 1][0] == u[0];
      TrailingStopsBeforeStart(u[..|u| - 1]);
    }
  }

  /** A string with no white space at either end is its own trim. */
  lemma TrimUntouched(s: string)
    requires s == [] || (!IsWhiteSpace(s[0]) && !IsWhiteSpace(s[|s| - 1]))
    ensures Trim(s) == s
  {
    assert LeadingWhiteSpace(s) == 0;
  }

  // ---------------------------------------------------------------- replace, split, join

  /** `s.replace(pattern, replacement)` with a string pattern: only the first occurrence is replaced. */
  function ReplaceFirst(s: string, pattern: string, replacement: string): (r: string)
  {
    var i := IndexOf(s, pattern);
    if i == -1 then s else s[..i] + replacement + s[i + |pattern|..]
  }

  /** Replacing the first occurrence of a prefix removes exactly that prefix. */
  lemma ReplaceFirstOfPrefix(pattern: string, rest: string)
    ensures ReplaceFirst(pattern + rest, pattern, "") == rest
  {
    assert OccursAt(pattern + rest, pattern, 0);
  }

  /** A string without the pattern is left as it is. */
  lemma ReplaceFirstAbsent(s: string, pattern: string)
    requires !Contains(s, pattern)
    ensures ReplaceFirst(s, pattern, "") == s
  {
  }

  /** The index of the first `c` in `s`, or |s| when there is none. */
  function FindChar(s: string, c: char): (r: nat)
    ensures r <= |s|
    ensures r < |s| ==> s[r] == c
    ensures c !in s[..r]
  {
    if |s| == 0 then 0
    else if s[0] == c then 0
    else
      var r := 1 + FindChar(s[1..], c);
      assert s[..r] == [s[0]] + s[1..][..r - 1];
      r
  }

  /** `parts.join(sep)`. */
  function Join(parts: seq<string>, sep: string): string
  {
    if |parts| == 0 then ""
    else if |parts| == 1 then parts[0]
    else parts[0] + sep + Join(parts[1..], sep)
  }

  /** `s.split(c)` for a one-character separator: always at least one part, none holding `c`. */
  function Split(s: string, c: char): (parts: seq<string>)
    decreases |s|
    ensures |parts| >= 1
    ensures forall k :: 0 <= k < |parts| ==> c !in parts[k]
  {
    var i := FindChar(s, c);
    if i == |s| then [s] else [s[..i]] + Split(s[i + 1..], c)
  }

  /** Joining the parts of a split with the separator gives the original string back. */
  lemma {:induction false} JoinSplit(s: string, c: char)
    decreases |s|
    ensures Join(Split(s, c), [c]) == s
  {
    var i := FindChar(s, c);
    if i < |s| {
      JoinSplit(s[i + 1..], c);
      assert s == s[..i] + [c] + s[i + 1..];
    }
  }

  /** Splitting a join of separator-free parts gives the parts back. */
  lemma {:induction false} SplitJoin(parts: seq<string>, c: char)
    requires |parts| >= 1
    requires forall k :: 0 <= k < |parts| ==> c !in parts[k]
    ensures Split(Join(parts, [c]), c) == parts
  {
    if |parts| > 1 {
      var s := Join(parts, [c]);
      var rest := Join(parts[1..], [c]);
      assert s == parts[0] + ([c] + rest);
      FindCharAfterFree(parts[0], [c] + rest, c);
      assert s[..|parts[0]|] == parts[0];
      assert s[|parts[0]| + 1..] == rest;
      SplitJoin(parts[1..], c);
      assert Split(s, c) == [parts[0]] + Split(rest, c);
    } else {
      FindCharAfterFree(parts[0], [], c);
      assert parts[0] + [] == parts[0];
    }
  }

  /** A split gives a single part exactly when the separator does not occur. */
  lemma SplitSingleIff(s: string, c: char)
    ensures |Split(s, c)| == 1 <==> c !in s
  {
    var i := FindChar(s, c);
    if c !in s {
      assert i == |s|;
    } else {
      assert s[..|s|] == s;
      assert i < |s|;
    }
  }

  lemma FindCharAfterFree(a: string, b: string, c: char)
    requires c !in a
    requires b == [] || b[0] == c
    ensures FindChar(a + b, c) == |a|
  {
    if |b| > 0 {
      assert (a + b)[|a|] == c;
    }
  }

  /**
   * `path.split('/').pop() || path`: the text after the last '/', or the whole path when that
   * text is empty (a path ending in '/') or there is no '/' at all.
   */
  function LastSegment(path: string): (r: string)
    ensures '/' !in r || r == path
    ensures EndsWith(path, r)
    ensures r == path <==> ('/' !in path || path == "" || path[|path| - 1] == '/')
    ensures r != path ==> r != "" && path[|path| - |r| - 1] == '/'
  {
    var parts := Split(path, '/');
    var last := parts[|parts| - 1];
    JoinSplit(path, '/');
    JoinEndsWithLast(parts, ['/']);
    LastPartShape(path);
    if last == "" then path else last
  }

  /** The last part of a split on '/' is the whole path, or a shorter suffix right after a '/'. */
  lemma LastPartShape(path: string)
    ensures var parts := Split(path, '/');
      && ('/' in path <==> |parts| >= 2)
      && (|parts| == 1 ==> parts[0] == path)
      && (|parts| >= 2 ==> |parts[|parts| - 1]| < |path| && path[|path| - |parts[|parts| - 1]| - 1] == '/')
  {
    var parts := Split(path, '/');
    SplitSingleIff(path, '/');
    JoinSplit(path, '/');
    if |parts| >= 2 {
      var last := parts[|parts| - 1];
      var front := Join(parts[..|parts| - 1], ['/']);
      assert path == front + ['/'] + last by {
        JoinBeforeLast(parts, ['/']);
      }
      assert path[|front|] == '/';
      assert |path| - |last| - 1 == |front|;
    }
  }

  /** A join of two or more parts ends with the separator and the last part. */
  lemma {:induction false} JoinBeforeLast(parts: seq<string>, sep: string)
    requires |parts| >= 2
    ensures Join(parts, sep) == Join(parts[..|parts| - 1], sep) + sep + parts[|parts| - 1]
  {
    if |parts| > 2 {
      JoinBeforeLast(parts[1..], sep);
      assert parts[1..][..|parts| - 2] == parts[..|parts| - 1][1..];
    }
  }

  lemma {:induction false} JoinEndsWithLast(parts: seq<string>, sep: string)
    requires |parts| >= 1
    ensures EndsWith(Join(parts, sep), parts[|parts| - 1])
  {
    if |parts| > 1 {
      JoinEndsWithLast(parts[1..], sep);
      var tail := Join(parts[1..], sep);
      assert (parts[0] + sep + tail)[|parts[0] + sep + tail| - |parts[|parts| - 1]|..] == tail[|tail| - |parts[|parts| - 1]|..];
    }
  }

  /** Joining around an inner position splits the joined string there. */
  lemma {:induction false} JoinAt(parts: seq<string>, sep: string, k: nat)
    requires 0 < k < |parts|
    ensures Join(parts, sep) == Join(parts[..k], sep) + sep + Join(parts[k..], sep)
  {
    if k > 1 {
      JoinAt(parts[1..], sep, k - 1);
      assert parts[1..][..k - 1] == parts[..k][1..];
      assert parts[1..][k - 1..] == parts[k..];
    }
  }

  /** Each part of a join occurs in the joined string. */
  lemma {:induction false} JoinContainsPart(parts: seq<string>, sep: string, k: nat)
    requires k < |parts|
    ensures Contains(Join(parts, sep), parts[k])
  {
    if |parts| > 1 {
      if k == 0 {
        assert OccursAt(Join(parts, sep), parts[0], 0);
      } else {
        JoinContainsPart(parts[1..], sep, k - 1);
        ContainsInConcat(parts[0] + sep, Join(parts[1..], sep), "", parts[k]);
        assert parts[0] + sep + Join(parts[1..], sep) + "" == Join(parts, sep);
      }
    } else {
      assert OccursAt(Join(parts, sep), parts[0], 0);
    }
  }

  // ---------------------------------------------------------------- numbers

  function DigitChar(d: nat): char
    requires d < 10
  {
    ('0' as int + d) as char
  }

  /** The decimal rendering of a non-negative integer, as a template literal prints it. */
  function NatToString(n: nat): (r: string)
    ensures |r| >= 1
    ensures forall i :: 0 <= i < |r| ==> '0' <= r[i] <= '9'
  {
    if n < 10 then [DigitChar(n)] else NatToString(n / 10) + [DigitChar(n % 10)]
  }

  /** The value of a string of decimal digits. */
  function DecimalValue(s: string): nat
    requires forall i :: 0 <= i < |s| ==> '0' <= s[i] <= '9'
  {
    if s == [] then 0 else 10 * DecimalValue(s[..|s| - 1]) + (s[|s| - 1] as int - '0' as int)
  }

  /** Reading the rendering back gives the number. */
  lemma {:induction false} DecimalRoundTrip(n: nat)
    ensures DecimalValue(NatToString(n)) == n
  {
    if n >= 10 {
      DecimalRoundTrip(n / 10);
      var s := NatToString(n);
      assert s[..|s| - 1] == NatToString(n / 10);
    }
  }

  /** The concatenation of all the pieces, in order. */
  function ConcatAll(texts: seq<string>): string
  {
    if texts == [] then "" else texts[0] + ConcatAll(texts[1..])
  }

  lemma {:induction false} ConcatAllAppend(a: seq<string>, b: seq<string>)
    ensures ConcatAll(a + b) == ConcatAll(a) + ConcatAll(b)
  {
    if a != [] {
      assert (a + b)[1..] == a[1..] + b;
      ConcatAllAppend(a[1..], b);
    } else {
      assert a + b == b;
    }
  }

  /** Concatenating one piece more extends the text built so far. */
  lemma ConcatAllSnoc(texts: seq<string>, last: string)
    ensures ConcatAll(texts + [last]) == ConcatAll(texts) + last
  {
    ConcatAllAppend(texts, [last]);
    assert ConcatAll([last]) == last + ConcatAll([]);
  }
}
