/** The parts of Go's `strings`, `unicode`, `path` and `path/filepath`
  * packages the program relies on, on strings of Unicode code points. */
module Strings {

  /** unicode.IsSpace: the characters strings.TrimSpace strips. */
  predicate IsSpace(c: char)
  {
    c == '\t' || c == '\n' || c == '\U{B}' || c == '\U{C}' || c == '\r' || c == ' '
    || c == '\U{85}' || c == '\U{A0}' || c == '\U{1680}'
    || ('\U{2000}' <= c <= '\U{200A}')
    || c == '\U{2028}' || c == '\U{2029}' || c == '\U{202F}' || c == '\U{205F}' || c == '\U{3000}'
  }

  /** The RE2 class `\s`: tab, newline, form feed, carriage return, space. */
  predicate IsReSpace(c: char)
  {
    c == '\t' || c == '\n' || c == '\U{C}' || c == '\r' || c == ' '
  }

  /** The RE2 class `\d` (ASCII digits only). */
  predicate IsDigit(c: char)
  {
    '0' <= c <= '9'
  }

  predicate HasPrefix(s: string, p: string)
  {
    |p| <= |s| && s[..|p|] == p
  }

  predicate HasSuffix(s: string, p: string)
  {
    |p| <= |s| && s[|s| - |p|..] == p
  }

  /** `sub` occurs in `s` starting at position `i`. */
  predicate OccursAt(s: string, sub: string, i: nat)
  {
    i + |sub| <= |s| && s[i..i + |sub|] == sub
  }

  predicate Contains(s: string, sub: string)
  {
    exists i: nat | i <= |s| :: OccursAt(s, sub, i)
  }

  /** strings.Index: the first position of `sub` in `s`, or -1. */
  function Index(s: string, sub: string): (r: int)
    ensures -1 <= r <= |s|
    ensures r == -1 <==> !Contains(s, sub)
    ensures r >= 0 ==> OccursAt(s, sub, r) && forall j: nat :: j < r ==> !OccursAt(s, sub, j)
  {
    IndexFrom(s, sub, 0)
  }

  function IndexFrom(s: string, sub: string, from: nat): (r: int)
    requires from <= |s| + 1
    requires forall j: nat :: j < from ==> !OccursAt(s, sub, j)
    ensures -1 <= r <= |s|
    ensures r == -1 <==> !Contains(s, sub)
    ensures r >= 0 ==> from <= r && OccursAt(s, sub, r) && forall j: nat :: j < r ==> !OccursAt(s, sub, j)
    decreases |s| + 1 - from
  {
    if from + |sub| > |s| then
      assert forall j: nat :: !OccursAt(s, sub, j) by {
        forall j: nat ensures !OccursAt(s, sub, j) {
          if j >= from { assert j + |sub| > |s|; }
        }
      }
      -1
    else if s[from..from + |sub|] == sub then
      assert OccursAt(s, sub, from);
      from
    else IndexFrom(s, sub, from + 1)
  }

  /** strings.Replace(s, old, new, -1): every non-overlapping occurrence,
    * scanning left to right. The source never replaces the empty string. */
  function ReplaceAll(s: string, pat: string, rep: string): (r: string)
    requires pat != ""
    ensures !Contains(s, pat) ==> r == s
    decreases |s|
  {
    if |s| < |pat| then
      assert !Contains(s, pat) by { NoRoom(s, pat); }
      s
    else if s[..|pat|] == pat then
      assert OccursAt(s, pat, 0);
      rep + ReplaceAll(s[|pat|..], pat, rep)
    else
      ContainsTail(s, pat);
      [s[0]] + ReplaceAll(s[1..], pat, rep)
  }

  lemma NoRoom(s: string, sub: string)
    requires |s| < |sub|
    ensures !Contains(s, sub)
  {
  }

  /** An occurrence in the tail is an occurrence in the string. */
  lemma ContainsTail(s: string, sub: string)
    requires |s| > 0
    ensures Contains(s[1..], sub) ==> Contains(s, sub)
  {
    if Contains(s[1..], sub) {
      var i: nat :| i <= |s[1..]| && OccursAt(s[1..], sub, i);
      assert i + |sub| <= |s| - 1;
      assert s[i + 1..i + 1 + |sub|] == s[1..][i..i + |sub|];
      assert OccursAt(s, sub, i + 1);
    }
  }

  /** Deleting a one-character pattern, or replacing it by text that does
    * not contain it, leaves no occurrence of that character. */
  lemma {:induction false} ReplaceCharRemovesIt(s: string, c: char, rep: string)
    requires c !in rep
    ensures c !in ReplaceAll(s, [c], rep)
    decreases |s|
  {
    if |s| >= 1 {
      if s[..1] == [c] {
        ReplaceCharRemovesIt(s[1..], c, rep);
      } else {
        ReplaceCharRemovesIt(s[1..], c, rep);
        assert s[0] != c;
      }
    }
  }

  /** strings.Split for a one-character separator. */
  function Split(s: string, sep: char): (parts: seq<string>)
    ensures |parts| >= 1
    ensures forall i :: 0 <= i < |parts| ==> sep !in parts[i]
    decreases |s|
  {
    if sep !in s then [s]
    else
      var i := FirstIndexOf(s, sep);
      [s[..i]] + Split(s[i + 1..], sep)
  }

  function FirstIndexOf(s: string, c: char): (i: nat)
    requires c in s
    ensures i < |s| && s[i] == c && c !in s[..i]
  {
    if s[0] == c then 0 else FirstIndexOf(s[1..], c) + 1
  }

  lemma {:induction false} FirstIndexOfConcat(a: string, c: char, b: string)
    requires c !in a
    ensures FirstIndexOf(a + [c] + b, c) == |a|
  {
    if a != [] {
      assert (a + [c] + b)[1..] == a[1..] + [c] + b;
      FirstIndexOfConcat(a[1..], c, b);
    }
  }

  /** strings.Join for a one-character separator. */
  function Join(parts: seq<string>, sep: char): string
  {
    if |parts| == 0 then ""
    else if |parts| == 1 then parts[0]
    else parts[0] + [sep] + Join(parts[1..], sep)
  }

  /** Split undoes Join when no part contains the separator. */
  lemma {:induction false} SplitJoin(parts: seq<string>, sep: char)
    requires |parts| >= 1
    requires forall i :: 0 <= i < |parts| ==> sep !in parts[i]
    ensures Split(Join(parts, sep), sep) == parts
    decreases |parts|
  {
    if |parts| > 1 {
      var s := Join(parts, sep);
      var rest := Join(parts[1..], sep);
      assert s == parts[0] + [sep] + rest;
      assert s[|parts[0]|] == sep;
      FirstIndexOfConcat(parts[0], sep, rest);
      var i := FirstIndexOf(s, sep);
      assert s[..i] == parts[0];
      assert s[i + 1..] == rest;
      SplitJoin(parts[1..], sep);
    } else {
      assert Join(parts, sep) == parts[0];
    }
  }

  /** Splitting at the first separator peels off the part before it. */
  lemma SplitAfter(a: string, sep: char, b: string)
    requires sep !in a
    ensures Split(a + [sep] + b, sep) == [a] + Split(b, sep)
  {
    var s := a + [sep] + b;
    assert s[|a|] == sep;
    FirstIndexOfConcat(a, sep, b);
    assert s[..|a|] == a;
    assert s[|a| + 1..] == b;
  }

  /** The result of strings.TrimLeftFunc(s, unicode.IsSpace). */
  function TrimLeft(s: string): (r: string)
    ensures |r| <= |s| && r == s[|s| - |r|..]
    ensures r == [] || !IsSpace(r[0])
    ensures forall i :: 0 <= i < |s| - |r| ==> IsSpace(s[i])
  {
    if |s| > 0 && IsSpace(s[0]) then
      var t := TrimLeft(s[1..]);
      assert forall i :: 1 <= i < |s| - |t| ==> s[i] == s[1..][i - 1];
      t
    else s
  }

  /** The result of strings.TrimRightFunc(s, unicode.IsSpace). */
  function TrimRight(s: string): (r: string)
    ensures |r| <= |s| && r == s[..|r|]
    ensures r == [] || !IsSpace(r[|r| - 1])
    ensures forall i :: |r| <= i < |s| ==> IsSpace(s[i])
  {
    if |s| > 0 && IsSpace(s[|s| - 1]) then
      var t := TrimRight(s[..|s| - 1]);
      assert forall i :: |t| <= i < |s| - 1 ==> s[i] == s[..|s| - 1][i];
      t
    else s
  }

  /** strings.TrimSpace: drops leading and trailing Unicode white space. */
  function TrimSpace(s: string): (r: string)
  {
    TrimRight(TrimLeft(s))
  }

  /** `r` is `s[i..j]`, and everything outside `i..j` is white space. */
  predicate TrimmedAt(s: string, r: string, i: int, j: int)
  {
    0 <= i <= j <= |s| && r == s[i..j]
    && (forall k :: 0 <= k < i ==> IsSpace(s[k]))
    && (forall k :: j <= k < |s| ==> IsSpace(s[k]))
  }

  /** Trimming the right of a suffix `s[i..]` keeps `s[i..j]` and drops
    * only white space. */
  lemma TrimRightOfSuffix(s: string, i: int)
    requires 0 <= i <= |s|
    ensures var r := TrimRight(s[i..]);
      i + |r| <= |s| && r == s[i..i + |r|] && forall k :: i + |r| <= k < |s| ==> IsSpace(s[k])
  {
    var l := s[i..];
    var r := TrimRight(l);
    forall k | i + |r| <= k < |s|
      ensures IsSpace(s[k])
    {
      assert s[k] == l[k - i];
    }
  }

  /** TrimSpace keeps a contiguous middle part of `s`, and everything it
    * drops is white space. */
  lemma TrimSpaceSpec(s: string)
    ensures exists i, j :: TrimmedAt(s, TrimSpace(s), i, j)
  {
    var l := TrimLeft(s);
    var i := |s| - |l|;
    assert l == s[i..];
    TrimRightOfSuffix(s, i);
    var r := TrimRight(l);
    assert TrimmedAt(s, TrimSpace(s), i, i + |r|);
  }

  /** The ends of a trimmed string are not white space. */
  lemma TrimSpaceEnds(s: string)
    ensures var r := TrimSpace(s); r == [] || (!IsSpace(r[0]) && !IsSpace(r[|r| - 1]))
  {
    var l := TrimLeft(s);
    var r := TrimRight(l);
    if r != [] {
      assert r[0] == l[0];
    }
  }

  /** Trimming twice is trimming once. */
  lemma TrimSpaceIdempotent(s: string)
    ensures TrimSpace(TrimSpace(s)) == TrimSpace(s)
  {
    var r := TrimSpace(s);
    TrimSpaceEnds(s);
    assert TrimLeft(r) == r;
    assert TrimRight(r) == r;
  }

  /** A string that neither starts nor ends with white space is its own
    * trimmed form. */
  lemma TrimSpaceKeeps(s: string)
    requires s == [] || (!IsSpace(s[0]) && !IsSpace(s[|s| - 1]))
    ensures TrimSpace(s) == s
  {
  }

  /** The empty string and only white space trim to "". */
  lemma TrimSpaceEmpty(s: string)
    ensures TrimSpace(s) == "" <==> forall k :: 0 <= k < |s| ==> IsSpace(s[k])
  {
    TrimSpaceSpec(s);
    var l := TrimLeft(s);
    assert |l| > 0 ==> l[0] == s[|s| - |l|];
  
  }

  function LowerChar(c: char): char
  {
    if 'A' <= c <= 'Z' then (c as int + 32) as char else c
  }

  function UpperChar(c: char): char
  {
    if 'a' <= c <= 'z' then (c as int - 32) as char else c
  }

  /** strings.ToLower, for the ASCII letters. */
  function ToLower(s: string): (r: string)
    ensures |r| == |s|
    ensures forall i :: 0 <= i < |s| ==> r[i] == LowerChar(s[i])
  {
    if s == [] then [] else [LowerChar(s[0])] + ToLower(s[1..])
  }

  /** strings.ToUpper, for the ASCII letters. */
  function ToUpper(s: string): (r: string)
    ensures |r| == |s|
    ensures forall i :: 0 <= i < |s| ==> r[i] == UpperChar(s[i])
  {
    if s == [] then [] else [UpperChar(s[0])] + ToUpper(s[1..])
  }

  /** Number of bytes in the UTF-8 encoding of `c`. */
  function Utf8Width(c: char): nat
  {
    if c as int < 0x80 then 1
    else if c as int < 0x800 then 2
    else if c as int < 0x10000 then 3
    else 4
  }

  /** Go's len(s): the length in bytes of the UTF-8 encoding. */
  function ByteLen(s: string): (n: nat)
    ensures |s| <= n <= 4 * |s|
  {
    if s == [] then 0 else Utf8Width(s[0]) + ByteLen(s[1..])
  }

  /** For an ASCII string, the byte length is the number of characters. */
  lemma {:induction false} ByteLenAscii(s: string)
    requires forall i :: 0 <= i < |s| ==> s[i] as int < 0x80
    ensures ByteLen(s) == |s|
  {
    if s != [] { ByteLenAscii(s[1..]); }
  }

  /** filepath.Ext: the suffix from the last '.' of the final path element,
    * or "" when that element has no '.'. */
  function Ext(path: string): (e: string)
    ensures HasSuffix(path, e)
    ensures e == "" || (e[0] == '.' && '/' !in e && '.' !in e[1..])
  {
    if path == [] || path[|path| - 1] == '/' then ""
    else if path[|path| - 1] == '.' then
      assert path[|path| - 1..] == ".";
      "."
    else
      var e := Ext(path[..|path| - 1]);
      if e == "" then ""
      else
        assert path[|path| - |e| - 1..] == path[..|path| - 1][|path| - 1 - |e|..] + [path[|path| - 1]];
        e + [path[|path| - 1]]
  }

  /** path.Base: the last slash-separated element, ignoring trailing
    * slashes; "." for the empty path and "/" for a path of slashes. */
  function Base(path: string): (b: string)
    ensures b != ""
  {
    if path == "" then "."
    else
      var p := TrimTrailingSlashes(path);
      if p == "" then "/"
      else LastElement(p)
  }

  function TrimTrailingSlashes(p: string): (r: string)
    ensures |r| <= |p| && r == p[..|r|]
    ensures r == "" || r[|r| - 1] != '/'
  {
    if p != "" && p[|p| - 1] == '/' then TrimTrailingSlashes(p[..|p| - 1]) else p
  }

  /** The part of `p` after its last '/'. */
  function LastElement(p: string): (r: string)
    ensures '/' !in r && HasSuffix(p, r)
  {
    if p == "" || p[|p| - 1] == '/' then ""
    else
      var r := LastElement(p[..|p| - 1]);
      assert p[|p| - |r| - 1..] == p[..|p| - 1][|p| - 1 - |r|..] + [p[|p| - 1]];
      r + [p[|p| - 1]]
  }

  /** The last element of a path ending in `/x` is `x`. */
  lemma {:induction false} LastElementOf(p: string, x: string)
    requires '/' !in x
    ensures LastElement(p + "/" + x) == x
    decreases |x|
  {
    if x != [] {
      var q := p + "/" + x;
      assert q[..|q| - 1] == p + "/" + x[..|x| - 1];
      assert q[|q| - 1] == x[|x| - 1];
      assert x[..|x| - 1] + [x[|x| - 1]] == x;
      LastElementOf(p, x[..|x| - 1]);
    } else {
      assert (p + "/" + x)[|p|] == '/';
    }
  }

  /** path.Base of `p/x` is `x` for a non-empty element `x`. */
  lemma BaseOf(p: string, x: string)
    requires x != "" && '/' !in x
    ensures Base(p + "/" + x) == x
  {
    var q := p + "/" + x;
    assert q[|q| - 1] == x[|x| - 1];
    assert x[|x| - 1] in x;
    LastElementOf(p, x);
  }

  /** Go's string comparison `a < b`: byte-wise lexicographic order, which
    * on UTF-8 is the lexicographic order of code points. */
  predicate Less(a: string, b: string)
  {
    if a == [] then b != []
    else if b == [] then false
    else if a[0] != b[0] then a[0] < b[0]
    else Less(a[1..], b[1..])
  }

  lemma {:induction false} LessIrreflexive(a: string)
    ensures !Less(a, a)
  {
    if a != [] { LessIrreflexive(a[1..]); }
  }

  lemma {:induction false} LessTransitive(a: string, b: string, c: string)
    requires Less(a, b) && Less(b, c)
    ensures Less(a, c)
  {
    if a != [] && b != [] && c != [] && a[0] == b[0] && b[0] == c[0] {
      LessTransitive(a[1..], b[1..], c[1..]);
    }
  }

  /** Any two different strings are ordered one way or the other. */
  lemma {:induction false} LessTotal(a: string, b: string)
    requires a != b
    ensures Less(a, b) || Less(b, a)
  {
    if a != [] && b != [] && a[0] == b[0] {
      assert a == [a[0]] + a[1..] && b == [b[0]] + b[1..];
      LessTotal(a[1..], b[1..]);
    }
  }

  /** A proper prefix sorts before the longer string; in particular a
    * directory sorts before everything inside it. */
  lemma {:induction false} PrefixLess(a: string, b: string)
    requires |a| < |b| && b[..|a|] == a
    ensures Less(a, b)
  {
    if a != [] {
      assert b[1..][..|a| - 1] == a[1..];
      PrefixLess(a[1..], b[1..]);
    }
  }

  /** Two strings joined by a mark whose first character neither left
    * part holds split back into the same parts. */
  lemma SplitAtMark(a1: string, b1: string, a2: string, b2: string, mark: string)
    requires |mark| > 0 && mark[0] !in a1 && mark[0] !in a2
    requires a1 + mark + b1 == a2 + mark + b2
    ensures a1 == a2 && b1 == b2
  {
    var s := a1 + mark + b1;
    assert s == a1 + [mark[0]] + (mark[1..] + b1);
    assert s == a2 + [mark[0]] + (mark[1..] + b2);
    FirstIndexOfConcat(a1, mark[0], mark[1..] + b1);
    FirstIndexOfConcat(a2, mark[0], mark[1..] + b2);
    assert a1 == s[..|a1|] == a2;
    assert b1 == s[|a1| + |mark|..] == b2;
  }
}
