/** Series information embedded in a book title (pkg/gr/book.go
  * `parseTitle`), with the two regular expressions written out as
  * matchers. Both are anchored at both ends and have the shape
  *   ^(.+)\s\((.+?)TAIL$
  * where TAIL is `,?\s+#([0-9.]+)\)` (the hash pattern) or
  * ` Series Book ([0-9.]+)\)` (the series-book pattern). `.` matches any
  * character except '\n', and `\s` is RE2's [\t\n\f\r ].
  *
  * A match is fixed by two cut points: group 1 is `s[..i]`, the space is
  * `s[i]`, the parenthesis `s[i+1]`, group 2 is `s[i+2..j]` and the tail
  * is `s[j..]`. RE2's leftmost-first rule makes the greedy group 1 as long
  * as any match allows and then the lazy group 2 as short as possible.
  *
  * goodreads.go `trimSeries` uses a third expression of the same shape,
  * ^(.+)\s\(.+?#\d+\)$ (the legacy pattern), whose tail is `#\d+\)`. */
module GrTitle {
  import opened Wrappers
  import opened Strings
  import opened Numbers
  import opened GrTypes

  datatype Pattern = HashPattern | SeriesBookPattern | LegacyPattern

  predicate NoNewline(t: string)
  {
    '\n' !in t
  }

  predicate IsPositionChar(c: char)
  {
    IsDigit(c) || c == '.'
  }

  /** `[0-9.]+` */
  predicate IsPosition(t: string)
  {
    |t| >= 1 && forall k :: 0 <= k < |t| ==> IsPositionChar(t[k])
  }

  /** The length of the run of `\s` characters at the start of `u`. */
  function LeadingReSpaces(u: string): (n: nat)
    ensures n <= |u|
    ensures forall k :: 0 <= k < n ==> IsReSpace(u[k])
    ensures n == |u| || !IsReSpace(u[n])
  {
    if u == [] || !IsReSpace(u[0]) then 0 else 1 + LeadingReSpaces(u[1..])
  }

  /** The tail after an optional comma: `\s+#([0-9.]+)\)`. The spaces
    * must be the whole leading run, because '#' is not a space. */
  function HashTailBody(t: string): string
  {
    if t != [] && t[0] == ',' then t[1..] else t
  }

  /** `,?\s+#([0-9.]+)\)` matching all of `t`. Skipping the comma when `t`
    * starts with one cannot help, since `\s+` does not match ','. */
  predicate HashTail(t: string)
  {
    var u := HashTailBody(t);
    var k := LeadingReSpaces(u);
    1 <= k && k + 3 <= |u| && u[k] == '#' && u[|u| - 1] == ')' && IsPosition(u[k + 1..|u| - 1])
  }

  const SeriesBook: string := " Series Book "

  /** ` Series Book ([0-9.]+)\)` matching all of `t`. */
  predicate SeriesBookTail(t: string)
  {
    |t| >= |SeriesBook| + 2 && t[..|SeriesBook|] == SeriesBook && t[|t| - 1] == ')'
    && IsPosition(t[|SeriesBook|..|t| - 1])
  }

  /** `#\d+\)` matching all of `t`. */
  predicate LegacyTail(t: string)
  {
    |t| >= 3 && t[0] == '#' && t[|t| - 1] == ')' && AllDigits(t[1..|t| - 1])
  }

  predicate Tail(p: Pattern, t: string)
  {
    match p
    case HashPattern => HashTail(t)
    case SeriesBookPattern => SeriesBookTail(t)
    case LegacyPattern => LegacyTail(t)
  }

  /** Group 3, the position digits, of a matching tail. */
  function PositionOf(p: Pattern, t: string): (d: string)
    requires Tail(p, t)
    ensures IsPosition(d)
  {
    match p
    case HashPattern =>
      var u := HashTailBody(t);
      var k := LeadingReSpaces(u);
      u[k + 1..|u| - 1]
    case SeriesBookPattern => t[|SeriesBook|..|t| - 1]
    case LegacyPattern => t[1..|t| - 1]
  }

  /** The cut points `i`, `j` describe a match of pattern `p` on `s`. */
  predicate IsMatch(p: Pattern, s: string, i: int, j: int)
  {
    1 <= i && i + 3 <= j <= |s|
    && IsReSpace(s[i]) && s[i + 1] == '('
    && NoNewline(s[..i]) && NoNewline(s[i + 2..j])
    && Tail(p, s[j..])
  }

  /** The shortest group 2 from `j` on, for a fixed group 1. */
  function FindGroup2(p: Pattern, s: string, i: nat, j: nat): (r: Option<nat>)
    requires forall j' :: j' < j ==> !IsMatch(p, s, i, j')
    ensures r.Some? ==> IsMatch(p, s, i, r.value) && forall j' :: j' < r.value ==> !IsMatch(p, s, i, j')
    ensures r.None? ==> forall j' :: !IsMatch(p, s, i, j')
    decreases |s| + 1 - j
  {
    if j > |s| then None
    else if IsMatch(p, s, i, j) then Some(j)
    else FindGroup2(p, s, i, j + 1)
  }

  /** The longest group 1 ending at or before `i`, then its shortest
    * group 2. */
  function FindGroup1(p: Pattern, s: string, i: nat): (r: Option<(nat, nat)>)
    requires forall i', j' :: i < i' ==> !IsMatch(p, s, i', j')
    ensures r.Some? ==> IsMatch(p, s, r.value.0, r.value.1)
    ensures r.Some? ==> forall i', j' :: IsMatch(p, s, i', j') ==>
      i' < r.value.0 || (i' == r.value.0 && r.value.1 <= j')
    ensures r.None? ==> forall i', j' :: !IsMatch(p, s, i', j')
  {
    if i == 0 then None
    else match FindGroup2(p, s, i, 0)
      case Some(j) => Some((i, j))
      case None => FindGroup1(p, s, i - 1)
  }

  /** The submatch RE2 reports for pattern `p` on `s`: among all matches,
    * the one with the longest group 1, and for that group 1 the shortest
    * group 2; None exactly when there is no match. */
  function Match(p: Pattern, s: string): (r: Option<(nat, nat)>)
    ensures r.Some? ==> IsMatch(p, s, r.value.0, r.value.1)
    ensures r.Some? ==> forall i', j' :: IsMatch(p, s, i', j') ==>
      i' < r.value.0 || (i' == r.value.0 && r.value.1 <= j')
    ensures r.None? <==> forall i', j' :: !IsMatch(p, s, i', j')
  {
    FindGroup1(p, s, |s|)
  }

  /** strconv.ParseFloat of the matched position with its error dropped:
    * a string such as "1.2.3" gives 0. */
  function ParsePosition(d: string): real
  {
    ParseDecimal(d).GetOr(0.0)
  }

  /** Title and series from one successful match. */
  function FromMatch(p: Pattern, s: string, i: nat, j: nat): (string, Series)
    requires IsMatch(p, s, i, j)
  {
    (TrimSpace(s[..i]), Series(TrimSpace(s[i + 2..j]), ParsePosition(PositionOf(p, s[j..])), 0, []))
  }

  /** pkg/gr/book.go `parseTitle`: the hash pattern first, then the
    * series-book pattern, else the title unchanged and the zero Series. */
  function ParseTitle(s: string): (r: (string, Series))
    ensures Match(HashPattern, s).Some? ==>
      r == FromMatch(HashPattern, s, Match(HashPattern, s).value.0, Match(HashPattern, s).value.1)
  {
    match Match(HashPattern, s)
    case Some((i, j)) => FromMatch(HashPattern, s, i, j)
    case None =>
      match Match(SeriesBookPattern, s)
      case Some((i, j)) => FromMatch(SeriesBookPattern, s, i, j)
      case None => (s, ZeroSeries)
  }

  /** A title that no pattern matches is returned as it is, with no series;
    * in particular any title without " (" or "\t(" and the like. */
  lemma ParseTitleNoMatch(s: string)
    requires forall i, j :: !IsMatch(HashPattern, s, i, j)
    requires forall i, j :: !IsMatch(SeriesBookPattern, s, i, j)
    ensures ParseTitle(s) == (s, ZeroSeries)
  {
  }

  /** A title without an opening parenthesis has no embedded series. */
  lemma ParseTitleWithoutParen(s: string)
    requires '(' !in s
    ensures ParseTitle(s) == (s, ZeroSeries)
  {
    forall p, i, j ensures !IsMatch(p, s, i, j) {
      if 1 <= i && i + 3 <= j <= |s| {
        assert s[i + 1] in s;
      }
    }
  }

  /** Every hash tail holds a '#'. */
  lemma HashTailHasHash(t: string)
    ensures HashTail(t) ==> '#' in t
  {
    if HashTail(t) {
      var u := HashTailBody(t);
      var k := LeadingReSpaces(u);
      assert u[k] == t[|t| - |u| + k];
    }
  }

  /** In a hash tail, a character that is neither ',' nor a space nor '#'
    * comes after the '#': it is a position digit or the ')'. */
  lemma HashTailWord(t: string, m: nat)
    requires m < |t| && t[m] != ',' && t[m] != '#' && !IsReSpace(t[m])
    ensures HashTail(t) ==> '#' !in t[m..]
  {
    if HashTail(t) {
      var u := HashTailBody(t);
      var o := |t| - |u|;
      assert u == t[o..] && o <= m;
      assert u[m - o] == t[m];
      HashBodyWord(u, m - o);
      assert t[m..] == u[m - o..];
    }
  }

  /** The same, for the body after the optional comma. */
  lemma HashBodyWord(u: string, m: nat)
    requires m < |u| && u[m] != '#' && !IsReSpace(u[m])
    requires var k := LeadingReSpaces(u);
      1 <= k && k + 3 <= |u| && u[k] == '#' && u[|u| - 1] == ')' && IsPosition(u[k + 1..|u| - 1])
    ensures '#' !in u[m..]
  {
    var k := LeadingReSpaces(u);
    assert m > k;
    var d := u[k + 1..|u| - 1];
    forall x | m <= x < |u| ensures u[x] != '#' {
      if x < |u| - 1 {
        assert d[x - k - 1] == u[x];
        assert IsPositionChar(d[x - k - 1]);
      }
    }
  }

  /** A series-book tail has no 'S' past its second character but the
    * one in "Series". */
  lemma SeriesBookTailLetter(t: string, m: nat)
    requires 2 <= m < |t|
    ensures SeriesBookTail(t) ==> t[m] != 'S'
  {
    if SeriesBookTail(t) {
      if m < |SeriesBook| {
        assert t[m] == SeriesBook[m];
      } else if m < |t| - 1 {
        assert t[|SeriesBook|..|t| - 1][m - |SeriesBook|] == t[m];
      }
    }
  }

  /** A legacy tail has no '#' after its first character. */
  lemma LegacyTailLetter(t: string, m: nat)
    requires 1 <= m < |t|
    ensures LegacyTail(t) ==> t[m] != '#'
  {
    if LegacyTail(t) && m < |t| - 1 {
      assert t[1..|t| - 1][m - 1] == t[m];
    }
  }

  /** The title `g1 (g2 TAIL)` as the pieces that a match cuts out. */
  function Assemble(g1: string, sp: char, g2: string, tail: string): string
  {
    g1 + [sp] + "(" + g2 + tail
  }

  /** The pieces of an assembled title sit where a match expects them. */
  lemma AssembleSlices(g1: string, sp: char, g2: string, tail: string)
    ensures var s := Assemble(g1, sp, g2, tail);
      var i := |g1|;
      var j := |g1| + 2 + |g2|;
      |s| == j + |tail| && s[..i] == g1 && s[i] == sp && s[i + 1] == '('
      && s[i + 2..j] == g2 && s[j..] == tail && s[i + 2..] == g2 + tail
  {
    var s := Assemble(g1, sp, g2, tail);
    assert s == g1 + ([sp] + "(" + g2 + tail);
    assert s == (g1 + [sp] + "(") + (g2 + tail);
    assert s == (g1 + [sp] + "(" + g2) + tail;
  }

  /** Past the '(' that opens group 2 there is none. */
  lemma NoParenAfter(g1: string, sp: char, g2: string, tail: string)
    requires '(' !in g2 + tail
    ensures var s := Assemble(g1, sp, g2, tail);
      forall k :: |g1| + 2 <= k < |s| ==> s[k] != '('
  {
    var s := Assemble(g1, sp, g2, tail);
    AssembleSlices(g1, sp, g2, tail);
    forall k | |g1| + 2 <= k < |s|
      ensures s[k] != '('
    {
      assert s[k] == (g2 + tail)[k - |g1| - 2];
    }
  }

  /** With group 1 `g1`, a hash tail cannot start inside `g2` when `g2`
    * ends in a word character and the tail holds a '#'. */
  lemma HashGroup2End(g1: string, sp: char, g2: string, tail: string, j': int)
    requires |g2| >= 1
    requires var c := g2[|g2| - 1]; c != ',' && c != '#' && !IsReSpace(c) && '#' in tail
    requires IsMatch(HashPattern, Assemble(g1, sp, g2, tail), |g1|, j')
    ensures |g1| + 2 + |g2| <= j'
  {
    var s := Assemble(g1, sp, g2, tail);
    var j := |g1| + 2 + |g2|;
    AssembleSlices(g1, sp, g2, tail);
    if j' < j {
      var t := s[j'..];
      var h :| 0 <= h < |tail| && tail[h] == '#';
      assert t[j - j' + h] == tail[h];
      HashTailWord(t, j - 1 - j');
    }
  }

  /** With group 1 `g1`, a series-book tail cannot start inside `g2` when
    * the tail's second character is 'S'. */
  lemma SeriesBookGroup2End(g1: string, sp: char, g2: string, tail: string, j': int)
    requires |tail| >= 2 && tail[1] == 'S'
    requires IsMatch(SeriesBookPattern, Assemble(g1, sp, g2, tail), |g1|, j')
    ensures |g1| + 2 + |g2| <= j'
  {
    var s := Assemble(g1, sp, g2, tail);
    var j := |g1| + 2 + |g2|;
    AssembleSlices(g1, sp, g2, tail);
    if j' < j {
      var t := s[j'..];
      assert t[j + 1 - j'] == tail[1];
      SeriesBookTailLetter(t, j + 1 - j');
    }
  }

  /** With group 1 `g1`, a legacy tail cannot start inside `g2` when the
    * tail starts with '#'. */
  lemma LegacyGroup2End(g1: string, sp: char, g2: string, tail: string, j': int)
    requires |tail| >= 1 && tail[0] == '#'
    requires IsMatch(LegacyPattern, Assemble(g1, sp, g2, tail), |g1|, j')
    ensures |g1| + 2 + |g2| <= j'
  {
    var s := Assemble(g1, sp, g2, tail);
    var j := |g1| + 2 + |g2|;
    AssembleSlices(g1, sp, g2, tail);
    if j' < j {
      var t := s[j'..];
      assert t[j - j'] == tail[0];
      LegacyTailLetter(t, j - j');
    }
  }

  /** No match of pattern `p` has a longer group 1 than `g1`, and none
    * with group 1 `g1` ends its group 2 inside `g2`. */
  lemma OnlyMatch(p: Pattern, g1: string, sp: char, g2: string, tail: string, i': int, j': int)
    requires |g2| >= 1 && '(' !in g2 + tail
    requires p == HashPattern ==>
      var c := g2[|g2| - 1]; c != ',' && c != '#' && !IsReSpace(c) && '#' in tail
    requires p == SeriesBookPattern ==> |tail| >= 2 && tail[1] == 'S'
    requires p == LegacyPattern ==> |tail| >= 1 && tail[0] == '#'
    requires IsMatch(p, Assemble(g1, sp, g2, tail), i', j')
    ensures i' <= |g1|
    ensures i' == |g1| ==> |g1| + 2 + |g2| <= j'
  {
    NoParenAfter(g1, sp, g2, tail);
    if i' == |g1| {
      match p
      case HashPattern => HashGroup2End(g1, sp, g2, tail, j');
      case SeriesBookPattern => SeriesBookGroup2End(g1, sp, g2, tail, j');
      case LegacyPattern => LegacyGroup2End(g1, sp, g2, tail, j');
    }
  }
  /** A title `g1 (g2 TAIL)` whose tail matches pattern `p`, where `g1`
    * and `g2` stay on one line and a shorter group 2 cannot be followed
    * by a matching tail, is cut exactly into `g1` and `g2`. */
  lemma MatchAssembled(p: Pattern, g1: string, sp: char, g2: string, tail: string)
    requires |g1| >= 1 && NoNewline(g1) && IsReSpace(sp)
    requires |g2| >= 1 && NoNewline(g2) && '(' !in g2 + tail
    requires Tail(p, tail)
    requires p == HashPattern ==>
      var c := g2[|g2| - 1]; c != ',' && c != '#' && !IsReSpace(c) && '#' in tail
    requires p == SeriesBookPattern ==> |tail| >= 2 && tail[1] == 'S'
    requires p == LegacyPattern ==> |tail| >= 1 && tail[0] == '#'
    ensures Match(p, Assemble(g1, sp, g2, tail)) == Some((|g1|, |g1| + 2 + |g2|))
  {
    var s := Assemble(g1, sp, g2, tail);
    AssembleSlices(g1, sp, g2, tail);
    assert IsMatch(p, s, |g1|, |g1| + 2 + |g2|);
    var r := Match(p, s);
    OnlyMatch(p, g1, sp, g2, tail, r.value.0, r.value.1);
  }

  /** What parseTitle returns for an assembled title: the trimmed pieces
    * and the parsed position. A hash tail wins over a series-book one; a
    * series-book title needs the hash pattern to fail, which a title
    * without '#' guarantees. */
  lemma ParseTitleAssembled(p: Pattern, g1: string, sp: char, g2: string, tail: string)
    requires p != LegacyPattern
    requires |g1| >= 1 && NoNewline(g1) && IsReSpace(sp)
    requires |g2| >= 1 && NoNewline(g2) && '(' !in g2 + tail
    requires Tail(p, tail)
    requires p == HashPattern ==>
      var c := g2[|g2| - 1]; c != ',' && c != '#' && !IsReSpace(c) && '#' in tail
    requires p == SeriesBookPattern ==> |tail| >= 2 && tail[1] == 'S' && '#' !in Assemble(g1, sp, g2, tail)
    ensures ParseTitle(Assemble(g1, sp, g2, tail))
      == (TrimSpace(g1), Series(TrimSpace(g2), ParsePosition(PositionOf(p, tail)), 0, []))
  {
    var s := Assemble(g1, sp, g2, tail);
    MatchAssembled(p, g1, sp, g2, tail);
    AssembleSlices(g1, sp, g2, tail);
    if p == SeriesBookPattern {
      forall j | 0 <= j <= |s| ensures !HashTail(s[j..]) {
        HashTailHasHash(s[j..]);
        assert forall x :: 0 <= x < |s[j..]| ==> s[j..][x] == s[j + x];
      }
    }
  }

  /** The pieces `g1` and `g2` each stay on one line and are already
    * trimmed, and no '(' follows the one that opens group 2. */
  predicate CleanPieces(g1: string, g2: string, tail: string)
  {
    g1 != [] && NoNewline(g1) && !IsSpace(g1[0]) && !IsSpace(g1[|g1| - 1])
    && g2 != [] && NoNewline(g2) && !IsSpace(g2[0]) && !IsSpace(g2[|g2| - 1]) && '(' !in g2 + tail
  }

  /** Nothing lets a shorter group 2, or for the series-book pattern the
    * hash pattern, match instead. */
  predicate Unambiguous(p: Pattern, g1: string, g2: string, tail: string)
    requires g2 != [] && |tail| >= 2
  {
    match p
    case HashPattern => var c := g2[|g2| - 1]; c != ',' && c != '#' && !IsReSpace(c)
    case SeriesBookPattern => tail[1] == 'S' && '#' !in g1 + g2 + tail
    case LegacyPattern => tail[0] == '#'
  }

  /** The title `g1 (g2TAIL)` parses into exactly `g1`, `g2` and the
    * position `r` when the pieces are clean and unambiguous. */
  lemma TitlePieces(s: string, p: Pattern, g1: string, g2: string, tail: string, r: real)
    requires p != LegacyPattern
    requires CleanPieces(g1, g2, tail)
    requires Tail(p, tail) && ParsePosition(PositionOf(p, tail)) == r
    requires |tail| >= 2 && Unambiguous(p, g1, g2, tail)
    requires s == Assemble(g1, ' ', g2, tail)
    ensures ParseTitle(s) == (g1, Series(g2, r, 0, []))
  {
    HashTailHasHash(tail);
    if p == SeriesBookPattern {
      assert s == g1 + " (" + (g2 + tail);
      assert '#' !in g2 + tail;
    }
    ParseTitleAssembled(p, g1, ' ', g2, tail);
    TrimSpaceKeeps(g1);
    TrimSpaceKeeps(g2);
  }

  /** An integer position parses to its value. */
  lemma ParsePositionOfDigits(d: string)
    requires |d| >= 1 && AllDigits(d)
    ensures ParsePosition(d) == DecValue(d) as real
  {
    ParseDecimalOfDigits(d);
  }

  /** The first title of pkg/gr/book_test.go's parseTitle table. */
  const StormFront: string := "Storm Front (The Dresden Files, #1)"
  const StormFrontTitle: string := "Storm Front"
  const DresdenFiles: string := "The Dresden Files"
  const StormFrontSuffix: string := ", #1)"

  lemma StormFrontTail()
    ensures HashTail(StormFrontSuffix) && ParsePosition(PositionOf(HashPattern, StormFrontSuffix)) == 1.0
  {
    assert HashTailBody(", #1)") == " #1)";
    assert LeadingReSpaces(" #1)") == 1;
    assert PositionOf(HashPattern, ", #1)") == "1";
    ParsePositionOfDigits("1");
  }

  lemma StormFrontAssembled()
    ensures StormFront == Assemble(StormFrontTitle, ' ', DresdenFiles, StormFrontSuffix)
  {
  }

  lemma StormFrontPieces()
    ensures CleanPieces(StormFrontTitle, DresdenFiles, StormFrontSuffix)
    ensures Unambiguous(HashPattern, StormFrontTitle, DresdenFiles, StormFrontSuffix)
  {
  }

  /** The lazy series group stops before the comma. */
  lemma StormFrontExample()
    ensures ParseTitle(StormFront) == (StormFrontTitle, Series(DresdenFiles, 1.0, 0, []))
  {
    StormFrontTail();
    StormFrontAssembled();
    StormFrontPieces();
    TitlePieces(StormFront, HashPattern, StormFrontTitle, DresdenFiles, StormFrontSuffix, 1.0);
  }

  /** The series-book title of pkg/gr/book_test.go's parseTitle table,
    * "Glass World (Undying Mercenaries Series Book 13)", written as its
    * pieces. */
  const GlassWorldTitle: string := "Glass World"
  const UndyingMercenaries: string := "Undying Mercenaries"
  const GlassWorldSuffix: string := " Series Book 13)"
  const GlassWorld: string := GlassWorldTitle + " (" + UndyingMercenaries + GlassWorldSuffix

  lemma GlassWorldTail()
    ensures SeriesBookTail(GlassWorldSuffix) && ParsePosition(PositionOf(SeriesBookPattern, GlassWorldSuffix)) == 13.0
  {
    assert " Series Book 13)"[..|SeriesBook|] == SeriesBook;
    assert PositionOf(SeriesBookPattern, " Series Book 13)") == "13";
    ParsePositionOfDigits("13");
    assert DecValue("13") == 13;
  }

  lemma GlassWorldAssembled()
    ensures GlassWorld == Assemble(GlassWorldTitle, ' ', UndyingMercenaries, GlassWorldSuffix)
  {
    assert [' '] + "(" == " (";
  }

  lemma GlassWorldPieces()
    ensures CleanPieces(GlassWorldTitle, UndyingMercenaries, GlassWorldSuffix)
  {
  }

  lemma GlassWorldUnambiguous()
    ensures Unambiguous(SeriesBookPattern, GlassWorldTitle, UndyingMercenaries, GlassWorldSuffix)
  {
  }

  /** A title without '#' falls through to the series-book pattern. */
  lemma GlassWorldExample()
    ensures ParseTitle(GlassWorld) == (GlassWorldTitle, Series(UndyingMercenaries, 13.0, 0, []))
  {
    GlassWorldTail();
    GlassWorldAssembled();
    GlassWorldPieces();
    GlassWorldUnambiguous();
    TitlePieces(GlassWorld, SeriesBookPattern, GlassWorldTitle, UndyingMercenaries, GlassWorldSuffix, 13.0);
  }

  lemma GhostStoryTail()
    ensures HashTail(GhostStorySuffix) && ParsePosition(PositionOf(HashPattern, GhostStorySuffix)) == 13.0
  {
    assert HashTailBody(",  #13)") == "  #13)";
    assert LeadingReSpaces("  #13)") == 2;
    assert PositionOf(HashPattern, ",  #13)") == "13";
    ParsePositionOfDigits("13");
    assert DecValue("13") == 13;
  }

  /** A title from the book-list fixtures with two spaces before '#'. */
  const GhostStory: string := "Ghost Story (The Dresden Files,  #13)"
  const GhostStoryTitle: string := "Ghost Story"
  const GhostStorySuffix: string := ",  #13)"

  lemma GhostStoryAssembled()
    ensures GhostStory == Assemble(GhostStoryTitle, ' ', DresdenFiles, GhostStorySuffix)
  {
  }

  lemma GhostStoryPieces()
    ensures CleanPieces(GhostStoryTitle, DresdenFiles, GhostStorySuffix)
    ensures Unambiguous(HashPattern, GhostStoryTitle, DresdenFiles, GhostStorySuffix)
  {
  }

  /** `\s+` takes both spaces. */
  lemma GhostStoryExample()
    ensures ParseTitle(GhostStory) == (GhostStoryTitle, Series(DresdenFiles, 13.0, 0, []))
  {
    GhostStoryTail();
    GhostStoryAssembled();
    GhostStoryPieces();
    TitlePieces(GhostStory, HashPattern, GhostStoryTitle, DresdenFiles, GhostStorySuffix, 13.0);
  }

  /** goodreads.go `trimSeries`: group 1 of the legacy pattern, untrimmed,
    * or the whole title when it does not match. */
  function TrimSeries(s: string): (r: string)
    ensures Match(LegacyPattern, s).Some? ==> r == s[..Match(LegacyPattern, s).value.0]
    ensures Match(LegacyPattern, s).None? ==> r == s
  {
    match Match(LegacyPattern, s)
    case Some((i, _)) => s[..i]
    case None => s
  }

  /** The legacy pattern needs digits only between '#' and ')': a title
    * whose last '#' is followed by anything else, such as a fractional
    * position, is left as it is. */
  lemma TrimSeriesKeepsFraction(a: string, d: string)
    requires '#' !in d && !AllDigits(d)
    ensures TrimSeries(a + "#" + d + ")") == a + "#" + d + ")"
  {
    var s := a + "#" + d + ")";
    assert s[|a|] == '#';
    assert s[|a| + 1..] == d + ")";
    forall j | 0 <= j <= |s| ensures !LegacyTail(s[j..]) {
      var t := s[j..];
      if j < |a| && |a| - j < |t| {
        assert t[|a| - j] == '#';
        LegacyTailLetter(t, |a| - j);
      } else if j == |a| {
        assert t == "#" + d + ")";
        assert t[1..|t| - 1] == d;
      } else if j < |s| {
        assert t[0] == (d + ")")[j - |a| - 1];
      }
    }
  }

  lemma StormFrontLegacyTail()
    ensures LegacyTail("#1)")
  {
  }

  lemma StormFrontLegacyAssembled()
    ensures StormFront == Assemble("Storm Front", ' ', "The Dresden Files, ", "#1)")
  {
  }

  /** The legacy pattern cuts the same title at the same place. */
  lemma TrimSeriesExample()
    ensures TrimSeries(StormFront) == "Storm Front"
  {
    StormFrontLegacyTail();
    StormFrontLegacyAssembled();
    MatchAssembled(LegacyPattern, "Storm Front", ' ', "The Dresden Files, ", "#1)");
    AssembleSlices("Storm Front", ' ', "The Dresden Files, ", "#1)");
  }
}
