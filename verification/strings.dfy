/** The handful of JavaScript / Python string operations the site's rules are
    written with: prefix and substring tests, indexOf, split and join on a
    separator, String.prototype.trim, ASCII lower-casing and a character
    replace. Strings are sequences of Unicode scalar values. */
module Strings {

  /** `s.startsWith(p)` */
  predicate StartsWith(s: string, p: string) {
    |p| <= |s| && s[..|p|] == p
  }

  /** `s.endsWith(p)` */
  predicate EndsWith(s: string, p: string) {
    |p| <= |s| && s[|s| - |p|..] == p
  }

  /** A concatenation starts with its first part and ends with its second. */
  lemma ConcatAffixes(a: string, b: string)
    ensures StartsWith(a + b, a) && EndsWith(a + b, b)
  {
    assert (a + b)[..|a|] == a;
    assert (a + b)[|a + b| - |b|..] == b;
  }

  /** `sub in s` (Python) / `s.includes(sub)` (JavaScript) */
  predicate Contains(s: string, sub: string)
    decreases |s|
  {
    StartsWith(s, sub) || (|s| > 0 && Contains(s[1..], sub))
  }

  /** `sub` occurs in `s` starting at position `i`. */
  predicate OccursAt(s: string, sub: string, i: int) {
    0 <= i <= |s| - |sub| && s[i..i + |sub|] == sub
  }

  /** Contains holds exactly when `sub` occurs at some position of `s`. */
  lemma {:induction false} ContainsAt(s: string, sub: string)
    ensures Contains(s, sub) <==> exists i :: OccursAt(s, sub, i)
    decreases |s|
  {
    if StartsWith(s, sub) {
      assert OccursAt(s, sub, 0);
    } else if |s| > 0 {
      ContainsAt(s[1..], sub);
      if Contains(s[1..], sub) {
        var i :| OccursAt(s[1..], sub, i);
        assert s[i + 1..i + 1 + |sub|] == s[1..][i..i + |sub|];
        assert OccursAt(s, sub, i + 1);
      }
      if exists i :: OccursAt(s, sub, i) {
        var i :| OccursAt(s, sub, i);
        assert i != 0;
        assert s[1..][i - 1..i - 1 + |sub|] == s[i..i + |sub|];
        assert OccursAt(s[1..], sub, i - 1);
      }
    } else {
      assert forall i :: !OccursAt(s, sub, i);
    }
  }

  /** Every string contains the text it is built around. */
  lemma ContainsMiddle(a: string, sub: string, b: string)
    ensures Contains(a + sub + b, sub)
  {
    var s := a + sub + b;
    assert s[|a|..|a| + |sub|] == sub;
    assert OccursAt(s, sub, |a|);
    ContainsAt(s, sub);
  }

  /** A one-character string is contained exactly when that character occurs. */
  lemma ContainsChar(s: string, c: char)
    ensures Contains(s, [c]) <==> c in s
  {
    ContainsAt(s, [c]);
    if c in s {
      var i :| 0 <= i < |s| && s[i] == c;
      assert s[i..i + 1] == [c];
      assert OccursAt(s, [c], i);
    }
    if exists i :: OccursAt(s, [c], i) {
      var i :| OccursAt(s, [c], i);
      assert s[i] == s[i..i + 1][0];
    }
  }

  /** `s.indexOf(c)`: the first position of `c`, or -1. */
  function IndexOf(s: string, c: char): (r: int)
    ensures -1 <= r < |s|
    ensures r == -1 <==> c !in s
    ensures r >= 0 ==> s[r] == c && c !in s[..r]
  {
    if |s| == 0 then -1
    else if s[0] == c then 0
    else
      var k := IndexOf(s[1..], c);
      assert s[1..] == s[1..];
      if k == -1 then -1
      else
        assert s[..k + 1] == [s[0]] + s[1..][..k];
        k + 1
  }

  /** The first occurrence of `c` is at `k` when `s[k]` is `c` and no
      earlier character is. */
  lemma {:induction false} IndexOfAt(s: string, c: char, k: int)
    requires 0 <= k < |s| && s[k] == c
    requires forall j :: 0 <= j < k ==> s[j] != c
    ensures IndexOf(s, c) == k
    decreases k
  {
    if k > 0 {
      IndexOfAt(s[1..], c, k - 1);
    }
  }

  /** Past the first character, `sub` occurs in `s` one position later than
      in `s[1..]`. */
  lemma OccursShift(s: string, sub: string, j: int)
    requires |s| > 0 && 1 <= j
    ensures OccursAt(s, sub, j) <==> OccursAt(s[1..], sub, j - 1)
  {
    var t := s[1..];
    if 0 <= j - 1 <= |t| - |sub| {
      assert t[j - 1..] == s[j..];
      assert t[j - 1..j - 1 + |sub|] == t[j - 1..][..|sub|];
      assert s[j..j + |sub|] == s[j..][..|sub|];
    }
  }

  /** The first position at which `sep` occurs in `s`, if any: nothing is
      found exactly when `sep` occurs nowhere, and no occurrence starts
      before the one found. */
  function Find(s: string, sep: string): (r: Option<nat>)
    requires |sep| > 0
    ensures r.Some? ==> r.value + |sep| <= |s| && s[r.value..r.value + |sep|] == sep
    ensures r.Some? ==> forall j :: 0 <= j < r.value ==> !OccursAt(s, sep, j)
    ensures r.None? <==> forall i :: !OccursAt(s, sep, i)
    decreases |s|
  {
    if |s| < |sep| then None
    else if s[..|sep|] == sep then
      assert OccursAt(s, sep, 0);
      Some(0)
    else
      assert !OccursAt(s, sep, 0);
      match Find(s[1..], sep)
        case None =>
          assert forall i :: !OccursAt(s, sep, i) by {
            forall i | 1 <= i {
              OccursShift(s, sep, i);
            }
          }
          None
        case Some(k) =>
          OccursShift(s, sep, k + 1);
          assert forall j :: 0 <= j < k + 1 ==> !OccursAt(s, sep, j) by {
            forall j | 1 <= j < k + 1 {
              OccursShift(s, sep, j);
            }
          }
          Some(k + 1)
  }

  /** What lies before the first occurrence of `sep` holds no occurrence. */
  lemma FindPrefixNone(s: string, sep: string, i: nat)
    requires |sep| > 0 && Find(s, sep) == Some(i)
    ensures Find(s[..i], sep) == None
  {
    forall m | OccursAt(s[..i], sep, m)
      ensures false
    {
      PrefixOccurs(s, sep, i, m);
    }
  }

  /** An occurrence inside a prefix is an occurrence in the whole string. */
  lemma PrefixOccurs(s: string, sub: string, i: nat, m: int)
    requires i <= |s| && OccursAt(s[..i], sub, m)
    ensures OccursAt(s, sub, m) && m + |sub| <= i
  {
    assert s[..i][m..m + |sub|] == s[m..m + |sub|];
  }

  /** `s.split(sep)` for a non-empty separator: the pieces between occurrences,
      always at least one (the empty string splits into [""]), none of them
      holding the separator. */
  function SplitOn(s: string, sep: string): (r: seq<string>)
    requires |sep| > 0
    ensures |r| >= 1
    ensures forall k :: 0 <= k < |r| ==> Find(r[k], sep).None?
    decreases |s|
  {
    match Find(s, sep)
      case None => [s]
      case Some(i) =>
        FindPrefixNone(s, sep, i);
        [s[..i]] + SplitOn(s[i + |sep|..], sep)
  }

  /** The first piece of a split is a prefix of the string. */
  lemma SplitOnHead(s: string, sep: string)
    requires |sep| > 0
    ensures StartsWith(s, SplitOn(s, sep)[0])
  {
  }

  /** Joining the pieces of a split with the separator gives the string
      back. */
  lemma {:induction false} JoinSplitOn(s: string, sep: string)
    requires |sep| > 0
    ensures Join(SplitOn(s, sep), sep) == s
    decreases |s|
  {
    match Find(s, sep)
      case None =>
      case Some(i) =>
        var rest := SplitOn(s[i + |sep|..], sep);
        JoinSplitOn(s[i + |sep|..], sep);
        assert SplitOn(s, sep)[1..] == rest;
        assert s == s[..i] + sep + s[i + |sep|..];
  }

  /** `s.split(c)` for a one-character separator. */
  function Split(s: string, c: char): (r: seq<string>)
    ensures |r| >= 1
  {
    SplitOn(s, [c])
  }

  /** `parts.join(sep)` */
  function Join(parts: seq<string>, sep: string): string {
    if |parts| == 0 then ""
    else if |parts| == 1 then parts[0]
    else parts[0] + sep + Join(parts[1..], sep)
  }

  /** Finding a one-character separator stops at its first occurrence. */
  lemma FindFirstChar(p: string, c: char, rest: string)
    requires c !in p
    ensures Find(p + [c] + rest, [c]) == Some(|p|)
    decreases |p|
  {
    var s := p + [c] + rest;
    if |p| > 0 {
      assert s[..1][0] == p[0];
      assert s[1..] == p[1..] + [c] + rest;
      FindFirstChar(p[1..], c, rest);
    }
  }

  /** Without the separator, nothing is found. */
  lemma {:induction false} FindNoChar(p: string, c: char)
    requires c !in p
    ensures Find(p, [c]) == None
    decreases |p|
  {
    if |p| > 0 {
      assert p[..1][0] == p[0] != c;
      assert c !in p[1..];
      FindNoChar(p[1..], c);
    }
  }

  /** A separator whose first character does not occur in `p` is first
      found right after `p`. */
  lemma {:induction false} FindAfter(p: string, sep: string, rest: string)
    requires |sep| > 0 && sep[0] !in p
    ensures Find(p + sep + rest, sep) == Some(|p|)
    decreases |p|
  {
    var s := p + sep + rest;
    if |p| > 0 {
      assert s[..|sep|][0] == p[0];
      assert s[1..] == p[1..] + sep + rest;
      FindAfter(p[1..], sep, rest);
    } else {
      assert s[..|sep|] == sep;
    }
  }

  /** A separator whose first character does not occur in `p` is not found
      in it. */
  lemma {:induction false} FindNone(p: string, sep: string)
    requires |sep| > 0 && sep[0] !in p
    ensures Find(p, sep) == None
    decreases |p|
  {
    if |p| >= |sep| {
      assert p[..|sep|][0] == p[0];
      FindNone(p[1..], sep);
    }
  }

  /** Splitting a join on a separator whose first character no part
      contains gives the parts back. */
  lemma {:induction false} SplitOnJoin(parts: seq<string>, sep: string)
    requires |parts| >= 1 && |sep| > 0
    requires forall i :: 0 <= i < |parts| ==> sep[0] !in parts[i]
    ensures SplitOn(Join(parts, sep), sep) == parts
    decreases |parts|
  {
    if |parts| == 1 {
      FindNone(parts[0], sep);
    } else {
      var rest := Join(parts[1..], sep);
      FindAfter(parts[0], sep, rest);
      var s := parts[0] + sep + rest;
      assert s[..|parts[0]|] == parts[0];
      assert s[|parts[0]| + |sep|..] == rest;
      SplitOnJoin(parts[1..], sep);
    }
  }

  /** Splitting a join on a one-character separator that no part contains
      gives the parts back. */
  lemma {:induction false} SplitJoin(parts: seq<string>, c: char)
    requires |parts| >= 1
    requires forall i :: 0 <= i < |parts| ==> c !in parts[i]
    ensures Split(Join(parts, [c]), c) == parts
    decreases |parts|
  {
    if |parts| == 1 {
      FindNoChar(parts[0], c);
    } else {
      var rest := Join(parts[1..], [c]);
      FindFirstChar(parts[0], c, rest);
      var s := parts[0] + [c] + rest;
      assert s[..|parts[0]|] == parts[0];
      assert s[|parts[0]| + 1..] == rest;
      SplitJoin(parts[1..], c);
    }
  }

  /** Splitting at the first separator. */
  lemma SplitFirst(p: string, c: char, r: string)
    requires c !in p
    ensures Split(p + [c] + r, c) == [p] + Split(r, c)
  {
    var s := p + [c] + r;
    FindFirstChar(p, c, r);
    assert s[..|p|] == p;
    assert s[|p| + 1..] == r;
  }

  /** Splitting around one separator splits each side on its own. */
  lemma {:induction false} SplitConcat(a: string, c: char, b: string)
    ensures Split(a + [c] + b, c) == Split(a, c) + Split(b, c)
    decreases |a|
  {
    var i := IndexOf(a, c);
    if i == -1 {
      SplitFirst(a, c, b);
      FindNoChar(a, c);
    } else {
      var p := a[..i];
      var r := a[i + 1..];
      assert a == p + [c] + r;
      SplitConcat(r, c, b);
      SplitConcatStep(p, r, c, b);
    }
  }

  lemma SplitConcatStep(p: string, r: string, c: char, b: string)
    requires c !in p
    requires Split(r + [c] + b, c) == Split(r, c) + Split(b, c)
    ensures Split(p + [c] + r + [c] + b, c) == Split(p + [c] + r, c) + Split(b, c)
  {
    SplitFirstOfTwo(p, r, c, b);
    SplitFirst(p, c, r);
    assert [p] + (Split(r, c) + Split(b, c)) == ([p] + Split(r, c)) + Split(b, c);
  }

  /** The first piece of a text with two separators is the text before the
      first one. */
  lemma SplitFirstOfTwo(p: string, r: string, c: char, b: string)
    requires c !in p
    ensures Split(p + [c] + r + [c] + b, c) == [p] + Split(r + [c] + b, c)
  {
    assert p + [c] + r + [c] + b == p + [c] + (r + [c] + b);
    SplitFirst(p, c, r + [c] + b);
  }

  /** A join contains the separator character only where a part does or
      between two parts. */
  lemma JoinNoChar(parts: seq<string>, sep: string, c: char)
    requires c !in sep
    requires forall i :: 0 <= i < |parts| ==> c !in parts[i]
    ensures c !in Join(parts, sep)
    decreases |parts|
  {
    if |parts| > 1 {
      JoinNoChar(parts[1..], sep, c);
    }
  }

  /** A join of at least one non-empty first part is non-empty. */
  lemma JoinNonEmpty(parts: seq<string>, sep: string)
    requires |parts| >= 1 && |parts[0]| > 0
    ensures |Join(parts, sep)| > 0
  {
  }

  /** A join starts with its first part. */
  lemma JoinHead(parts: seq<string>, sep: string)
    requires |parts| >= 1 && |parts[0]| > 0
    ensures |Join(parts, sep)| > 0 && Join(parts, sep)[0] == parts[0][0]
  {
  }

  /** `xs.filter(Boolean)` on strings: drops the empty strings. */
  function NonEmpty(xs: seq<string>): (r: seq<string>)
    ensures forall i :: 0 <= i < |r| ==> r[i] != ""
    ensures |r| <= |xs|
  {
    if |xs| == 0 then []
    else if xs[0] == "" then NonEmpty(xs[1..])
    else [xs[0]] + NonEmpty(xs[1..])
  }

  /** Filtering distributes over concatenation. */
  lemma {:induction false} NonEmptyAppend(xs: seq<string>, ys: seq<string>)
    ensures NonEmpty(xs + ys) == NonEmpty(xs) + NonEmpty(ys)
    decreases |xs|
  {
    if |xs| > 0 {
      assert (xs + ys)[1..] == xs[1..] + ys;
      NonEmptyAppend(xs[1..], ys);
    } else {
      assert xs + ys == ys;
    }
  }

  /** Filtering a list of non-empty strings keeps it as it is. */
  lemma NonEmptyId(xs: seq<string>)
    requires forall i :: 0 <= i < |xs| ==> xs[i] != ""
    ensures NonEmpty(xs) == xs
  {
    if |xs| > 0 {
      NonEmptyId(xs[1..]);
    }
  }

  /** WhiteSpace and LineTerminator code points of ECMAScript (section 12.2 and
      12.3 of ECMA-262): TAB, VT, FF, ZWNBSP, the Space_Separator (Zs)
      characters, LF, CR, LS and PS. */
  predicate IsJsWhitespace(c: char) {
    var n := c as int;
    n == 0x09 || n == 0x0A || n == 0x0B || n == 0x0C || n == 0x0D ||
    n == 0x20 || n == 0xA0 || n == 0x1680 ||
    (0x2000 <= n <= 0x200A) ||
    n == 0x2028 || n == 0x2029 || n == 0x202F || n == 0x205F ||
    n == 0x3000 || n == 0xFEFF
  }

  /** `s.trimStart()` */
  function TrimStart(s: string): (r: string)
    ensures |r| <= |s| && s[|s| - |r|..] == r
    ensures |r| > 0 ==> !IsJsWhitespace(r[0])
    ensures forall i :: 0 <= i < |s| - |r| ==> IsJsWhitespace(s[i])
  {
    if |s| > 0 && IsJsWhitespace(s[0]) then TrimStart(s[1..]) else s
  }

  /** `s.trimEnd()` */
  function TrimEnd(s: string): (r: string)
    ensures |r| <= |s| && s[..|r|] == r
    ensures |r| > 0 ==> !IsJsWhitespace(r[|r| - 1])
    ensures forall i :: |r| <= i < |s| ==> IsJsWhitespace(s[i])
  {
    if |s| > 0 && IsJsWhitespace(s[|s| - 1]) then TrimEnd(s[..|s| - 1]) else s
  }

  /** `s.trim()`: the slice of `s` left once the white space at both ends is
      cut, and only white space is cut. */
  function Trim(s: string): (r: string)
    ensures |r| <= |s|
    ensures |r| > 0 ==> !IsJsWhitespace(r[0]) && !IsJsWhitespace(r[|r| - 1])
    ensures OccursAt(s, r, |s| - |TrimStart(s)|)
    ensures forall i :: 0 <= i < |s| - |TrimStart(s)| ==> IsJsWhitespace(s[i])
    ensures forall i :: |s| - |TrimStart(s)| + |r| <= i < |s| ==> IsJsWhitespace(s[i])
  {
    var t := TrimStart(s);
    var r := TrimEnd(t);
    PrefixOfSuffix(s, t, r);
    SuffixWhitespace(s, t, r);
    r
  }

  /** What `TrimEnd` cuts from a suffix of `s` is white space of `s`. */
  lemma SuffixWhitespace(s: string, t: string, r: string)
    requires |t| <= |s| && s[|s| - |t|..] == t
    requires |r| <= |t| && forall i :: |r| <= i < |t| ==> IsJsWhitespace(t[i])
    ensures forall i :: |s| - |t| + |r| <= i < |s| ==> IsJsWhitespace(s[i])
  {
    forall i | |s| - |t| + |r| <= i < |s|
      ensures IsJsWhitespace(s[i])
    {
      assert s[i] == t[i - (|s| - |t|)];
    }
  }

  /** A prefix of a suffix of `s` occurs in `s` where the suffix starts. */
  lemma PrefixOfSuffix(s: string, t: string, r: string)
    requires |t| <= |s| && s[|s| - |t|..] == t
    requires |r| <= |t| && t[..|r|] == r
    ensures OccursAt(s, r, |s| - |t|)
  {
    assert s[|s| - |t|..][..|r|] == s[|s| - |t|..|s| - |t| + |r|];
  }

  /** A string trims to "" exactly when all its characters are white space. */
  lemma TrimEmpty(s: string)
    ensures Trim(s) == "" <==> forall i :: 0 <= i < |s| ==> IsJsWhitespace(s[i])
  {
    var t := TrimStart(s);
    assert Trim(s) == "" ==> t == "";
  }

  /** A string with one non-white-space character does not trim to "". */
  lemma TrimNonBlank(s: string, i: int)
    requires 0 <= i < |s| && !IsJsWhitespace(s[i])
    ensures Trim(s) != ""
  {
    TrimEmpty(s);
  }

  /** ASCII upper case to lower case; other characters are kept. */
  function LowerChar(c: char): (r: char)
    ensures 'A' <= c <= 'Z' ==> r as int == c as int + 32
    ensures !('A' <= c <= 'Z') ==> r == c
  {
    if 'A' <= c <= 'Z' then (c as int + 32) as char else c
  }

  /** `s.toLowerCase()` restricted to the ASCII letters. */
  function LowerAscii(s: string): (r: string)
    ensures |r| == |s|
    ensures forall i :: 0 <= i < |s| ==> r[i] == LowerChar(s[i])
  {
    if |s| == 0 then "" else [LowerChar(s[0])] + LowerAscii(s[1..])
  }

  /** `s.replace(/from/g, to)` for one character. */
  function ReplaceChar(s: string, from: char, to: char): (r: string)
    ensures |r| == |s|
    ensures forall i :: 0 <= i < |s| ==> r[i] == if s[i] == from then to else s[i]
  {
    if |s| == 0 then "" else [if s[0] == from then to else s[0]] + ReplaceChar(s[1..], from, to)
  }

  /** `${base}${extra ? ' ' + extra : ''}`: a class list with an optional
      extra class; an absent or empty extra adds nothing. */
  function WithClass(base: string, extra: Option<string>): (r: string)
    ensures StartsWith(r, base)
    ensures r == base <==> extra.None? || extra.value == ""
  {
    if extra.Some? && extra.value != "" then base + " " + extra.value else base
  }

  /** Split on spaces, the class list is the base class followed by the
      words of the extra class. */
  lemma WithClassWords(base: string, extra: Option<string>)
    requires ' ' !in base
    ensures Split(WithClass(base, extra), ' ') ==
      [base] + (if extra.Some? && extra.value != "" then Split(extra.value, ' ') else [])
  {
    if extra.Some? && extra.value != "" {
      assert base + " " + extra.value == base + [' '] + extra.value;
      SplitFirst(base, ' ', extra.value);
    } else {
      FindNoChar(base, ' ');
    }
  }

  datatype Option<+T> = None | Some(value: T)
}
