/** Description text clean-up (pkg/gr/text.go): typographic tidying,
  * decoding of numeric character references, and the tag rewriting that
  * turns sanitised HTML into plain text or Markdown.
  *
  * The HTML sanitiser (bluemonday with the policies set up in `init`) is
  * a parameter: the converters take it as a function. */
module GrText {
  import opened Wrappers
  import opened Strings
  import opened Numbers

  /* ---------- tidyText ---------- */

  /** The leading run of `\s` characters removed. */
  function DropReSpaces(s: string): (r: string)
    ensures |r| <= |s| && r == s[|s| - |r|..]
    ensures r == [] || !IsReSpace(r[0])
    ensures forall i :: 0 <= i < |s| - |r| ==> IsReSpace(s[i])
  {
    if s != [] && IsReSpace(s[0]) then
      var t := DropReSpaces(s[1..]);
      assert forall i :: 1 <= i < |s| - |t| ==> s[i] == s[1..][i - 1];
      t
    else s
  }

  /** `rxWhitespace.ReplaceAllString(s, " ")` with `\s+`: each maximal run
    * of `\s` characters becomes one space. */
  function CollapseSpaces(s: string): (r: string)
    ensures |r| <= |s|
    ensures r == [] <==> s == []
    ensures s != [] && !IsReSpace(s[0]) ==> r[0] == s[0]
    ensures s != [] && IsReSpace(s[0]) ==> r[0] == ' '
    decreases |s|
  {
    if s == [] then []
    else if IsReSpace(s[0]) then [' '] + CollapseSpaces(DropReSpaces(s[1..]))
    else [s[0]] + CollapseSpaces(s[1..])
  }

  /** The only `\s` character left is the plain space, and no two spaces
    * are adjacent. */
  predicate Collapsed(r: string)
  {
    (forall i :: 0 <= i < |r| && IsReSpace(r[i]) ==> r[i] == ' ')
    && forall i :: 0 <= i < |r| - 1 ==> !(r[i] == ' ' && r[i + 1] == ' ')
  }

  lemma {:induction false} CollapseSpacesCollapsed(s: string)
    ensures Collapsed(CollapseSpaces(s))
    decreases |s|
  {
    if s != [] {
      var r := CollapseSpaces(s);
      if IsReSpace(s[0]) {
        var t := DropReSpaces(s[1..]);
        CollapseSpacesCollapsed(t);
        assert r == [' '] + CollapseSpaces(t);
        assert forall i :: 1 <= i < |r| ==> r[i] == CollapseSpaces(t)[i - 1];
      } else {
        CollapseSpacesCollapsed(s[1..]);
        assert r == [s[0]] + CollapseSpaces(s[1..]);
        assert forall i :: 1 <= i < |r| ==> r[i] == CollapseSpaces(s[1..])[i - 1];
      }
    }
  }

  /** The characters other than `\s`, in order. */
  function NonSpaces(s: string): string
  {
    if s == [] then []
    else if IsReSpace(s[0]) then NonSpaces(s[1..])
    else [s[0]] + NonSpaces(s[1..])
  }

  lemma {:induction false} NonSpacesOfDropped(s: string)
    ensures NonSpaces(DropReSpaces(s)) == NonSpaces(s)
    decreases |s|
  {
    if s != [] && IsReSpace(s[0]) {
      NonSpacesOfDropped(s[1..]);
    }
  }

  /** Collapsing white space keeps every other character, in order. */
  lemma {:induction false} CollapseSpacesKeepsText(s: string)
    ensures NonSpaces(CollapseSpaces(s)) == NonSpaces(s)
    decreases |s|
  {
    if s != [] {
      if IsReSpace(s[0]) {
        var t := DropReSpaces(s[1..]);
        CollapseSpacesKeepsText(t);
        NonSpacesOfDropped(s[1..]);
        assert CollapseSpaces(s) == [' '] + CollapseSpaces(t);
      } else {
        CollapseSpacesKeepsText(s[1..]);
        assert CollapseSpaces(s) == [s[0]] + CollapseSpaces(s[1..]);
      }
    }
  }

  const Ellipsis: string := "…"
  const EmDash: string := "—"

  /** The four ellipsis spellings, longest first, each replaced by "…". */
  function TidyEllipses(s: string): string
  {
    var s1 := ReplaceAll(s, "....", Ellipsis);
    var s2 := ReplaceAll(s1, ". . . .", Ellipsis);
    var s3 := ReplaceAll(s2, ". . .", Ellipsis);
    ReplaceAll(s3, "...", Ellipsis)
  }

  /** pkg/gr/text.go `tidyText`. */
  function TidyText(s: string): string
  {
    var s1 := TidyEllipses(s);
    var s2 := ReplaceAll(s1, "--", EmDash);
    var s3 := ReplaceAll(s2, "\n", "");
    CollapseSpaces(s3)
  }

  /** tidyText leaves no newline, tab, form feed or carriage return, and no
    * two spaces in a row, and otherwise keeps the text of its input after
    * the dash and ellipsis substitutions. */
  lemma TidyTextClean(s: string)
    ensures Collapsed(TidyText(s))
    ensures '\n' !in TidyText(s)
    ensures NonSpaces(TidyText(s)) == NonSpaces(ReplaceAll(ReplaceAll(TidyEllipses(s), "--", EmDash), "\n", ""))
  {
    var s3 := ReplaceAll(ReplaceAll(TidyEllipses(s), "--", EmDash), "\n", "");
    CollapseSpacesCollapsed(s3);
    CollapseSpacesKeepsText(s3);
  }

  const FourDots: string := "...."
  const SpacedFourDots: string := ". . . ."
  const SpacedThreeDots: string := ". . ."
  const ThreeDots: string := "..."

  /** Replacing a whole string that is the pattern gives the replacement. */
  lemma ReplaceAllSelf(pat: string, rep: string)
    requires pat != ""
    ensures ReplaceAll(pat, pat, rep) == rep
  {
    assert pat[|pat|..] == "";
  }

  /** A string shorter than the pattern is left alone. */
  lemma ReplaceAllShort(s: string, pat: string, rep: string)
    requires pat != "" && |s| < |pat|
    ensures ReplaceAll(s, pat, rep) == s
  {
  }

  /** Text without two dots in a row holds no pattern starting with two
    * dots. */
  lemma NoDotRun(s: string, pat: string)
    requires |pat| >= 2 && pat[0] == '.' && pat[1] == '.'
    requires forall i :: 0 <= i < |s| - 1 ==> !(s[i] == '.' && s[i + 1] == '.')
    ensures !Contains(s, pat)
  {
  }

  /** Text without `\s` characters is unchanged by collapsing. */
  lemma {:induction false} CollapseSpacesPlain(s: string)
    requires forall i :: 0 <= i < |s| ==> !IsReSpace(s[i])
    ensures CollapseSpaces(s) == s
    decreases |s|
  {
    if s != [] {
      CollapseSpacesPlain(s[1..]);
    }
  }

  /** Once the ellipses have become a single "…", the rest of tidyText
    * keeps it. */
  lemma TidyTextOfEllipsis(s: string)
    requires TidyEllipses(s) == Ellipsis
    ensures TidyText(s) == Ellipsis
  {
    ReplaceAllShort(Ellipsis, "--", EmDash);
    assert ReplaceAll(Ellipsis, "\n", "") == Ellipsis;
    CollapseSpacesPlain(Ellipsis);
  }

  lemma FourDotsExample()
    ensures TidyText(FourDots) == Ellipsis
  {
    ReplaceAllSelf(FourDots, Ellipsis);
    ReplaceAllShort(Ellipsis, SpacedFourDots, Ellipsis);
    ReplaceAllShort(Ellipsis, SpacedThreeDots, Ellipsis);
    ReplaceAllShort(Ellipsis, ThreeDots, Ellipsis);
    TidyTextOfEllipsis(FourDots);
  }

  lemma SpacedFourDotsExample()
    ensures TidyText(SpacedFourDots) == Ellipsis
  {
    NoDotRun(SpacedFourDots, FourDots);
    ReplaceAllSelf(SpacedFourDots, Ellipsis);
    ReplaceAllShort(Ellipsis, SpacedThreeDots, Ellipsis);
    ReplaceAllShort(Ellipsis, ThreeDots, Ellipsis);
    TidyTextOfEllipsis(SpacedFourDots);
  }

  lemma SpacedThreeDotsExample()
    ensures TidyText(SpacedThreeDots) == Ellipsis
  {
    NoDotRun(SpacedThreeDots, FourDots);
    ReplaceAllShort(SpacedThreeDots, SpacedFourDots, Ellipsis);
    ReplaceAllSelf(SpacedThreeDots, Ellipsis);
    ReplaceAllShort(Ellipsis, ThreeDots, Ellipsis);
    TidyTextOfEllipsis(SpacedThreeDots);
  }

  lemma ThreeDotsExample()
    ensures TidyText(ThreeDots) == Ellipsis
  {
    ReplaceAllShort(ThreeDots, FourDots, Ellipsis);
    ReplaceAllShort(ThreeDots, SpacedFourDots, Ellipsis);
    ReplaceAllShort(ThreeDots, SpacedThreeDots, Ellipsis);
    ReplaceAllSelf(ThreeDots, Ellipsis);
    TidyTextOfEllipsis(ThreeDots);
  }

  /* ---------- decodeEntities ---------- */

  /** `s[p..]` starts with a match of `&#\d+;` whose digits are
    * `s[p+2..p+2+k]`. */
  predicate EntityAt(s: string, p: int, k: int)
  {
    0 <= p && 1 <= k && p + k + 3 <= |s|
    && s[p] == '&' && s[p + 1] == '#'
    && AllDigits(s[p + 2..p + 2 + k]) && s[p + 2 + k] == ';'
  }

  predicate HasEntity(s: string)
  {
    exists p, k | 0 <= p < |s| && 0 <= k < |s| :: EntityAt(s, p, k)
  }

  /** The number of digits in `s` from position `from`. */
  function DigitRun(s: string, from: nat): (k: nat)
    requires from <= |s|
    ensures from + k <= |s| && AllDigits(s[from..from + k])
    ensures from + k == |s| || !IsDigit(s[from + k])
    decreases |s| - from
  {
    if from < |s| && IsDigit(s[from]) then
      var k := DigitRun(s, from + 1);
      assert s[from..from + 1 + k] == [s[from]] + s[from + 1..from + 1 + k];
      1 + k
    else 0
  }

  /** The digit count of the match at `p`, if one starts there: the digit
    * run must be whole, because ';' is not a digit. */
  function EntityLen(s: string, p: nat): (r: Option<nat>)
    ensures r.Some? ==> EntityAt(s, p, r.value)
    ensures r.None? ==> forall k :: !EntityAt(s, p, k)
  {
    if p + 2 <= |s| && s[p] == '&' && s[p + 1] == '#' then
      var k := DigitRun(s, p + 2);
      if k >= 1 && p + 2 + k < |s| && s[p + 2 + k] == ';' then Some(k)
      else
        assert forall k' :: !EntityAt(s, p, k') by {
          forall k' ensures !EntityAt(s, p, k') {
            NoEntityAfterRun(s, p, k, k');
          }
        }
        None
    else None
  }

  /** Two digit runs from the same place, both ending in a non-digit or
    * the end, have the same length. */
  lemma DigitsAgree(s: string, from: nat, k: nat, k': int)
    requires from + k <= |s| && AllDigits(s[from..from + k])
    requires from + k == |s| || !IsDigit(s[from + k])
    requires 1 <= k' && from + k' < |s| && AllDigits(s[from..from + k']) && s[from + k'] == ';'
    ensures k == k'
  {
  }

  /** When the digit run after "&#" is empty or not closed by ';', no
    * match starts there. */
  lemma NoEntityAfterRun(s: string, p: nat, k: nat, k': int)
    requires p + 2 + k <= |s| && AllDigits(s[p + 2..p + 2 + k])
    requires p + 2 + k == |s| || !IsDigit(s[p + 2 + k])
    requires !(k >= 1 && p + 2 + k < |s| && s[p + 2 + k] == ';')
    ensures !EntityAt(s, p, k')
  {
    if EntityAt(s, p, k') {
      DigitsAgree(s, p + 2, k, k');
    }
  }

  /** The leftmost match of `&#\d+;` at or after `from`, as
    * `FindStringIndex` gives it: its start and its digit count. */
  function FindEntity(s: string, from: nat): (r: Option<(nat, nat)>)
    requires from <= |s|
    ensures r.Some? ==> from <= r.value.0 && EntityAt(s, r.value.0, r.value.1)
    ensures r.Some? ==> forall q, k :: from <= q < r.value.0 ==> !EntityAt(s, q, k)
    ensures r.None? ==> forall q, k :: from <= q ==> !EntityAt(s, q, k)
    decreases |s| - from
  {
    if from == |s| then None
    else match EntityLen(s, from)
      case Some(k) => Some((from, k))
      case None => FindEntity(s, from + 1)
  }

  /** Go's `string(i)` for an int64 `i`: the code point `i`, or U+FFFD
    * when `i` is not a Unicode scalar value. */
  function Rune(i: int): (c: char)
    ensures 0 <= i < 0xD800 || 0xE000 <= i <= 0x10FFFF ==> c as int == i
    ensures !(0 <= i < 0xD800 || 0xE000 <= i <= 0x10FFFF) ==> c == '\U{FFFD}'
  {
    if 0 <= i < 0xD800 || 0xE000 <= i <= 0x10FFFF then i as char else '\U{FFFD}'
  }

  /** One replacement: the match of `k` digits at `p` becomes the character
    * its digits name, read by ParseInt with its error ignored (so a number
    * past int64 reads as the int64 maximum). */
  function DecodeAt(s: string, p: nat, k: nat): (r: string)
    requires EntityAt(s, p, k)
    ensures |r| == |s| - k - 2
    ensures r[..p] == s[..p] && r[p + 1..] == s[p + k + 3..]
  {
    s[..p] + [Rune(ParseInt64(s[p + 2..p + 2 + k]).0)] + s[p + k + 3..]
  }

  /** The loop of `decodeEntities` as a function: replace the leftmost
    * match until none is left. A replacement can form a new match from
    * the text around it, which the next round then decodes. */
  function DecodeAll(s: string): (r: string)
    ensures !HasEntity(r)
    decreases |s|
  {
    match FindEntity(s, 0)
    case None => s
    case Some((p, k)) => DecodeAll(DecodeAt(s, p, k))
  }

  /** pkg/gr/text.go `decodeEntities`, as a function. */
  function DecodeEntities(s: string): string
  {
    TrimSpace(DecodeAll(s))
  }

  /** pkg/gr/text.go `decodeEntities`: the loop itself. */
  method DecodeEntitiesLoop(s: string) returns (r: string)
    ensures r == DecodeEntities(s)
    ensures !HasEntity(r)
  {
    var t := s;
    while true
      invariant DecodeAll(t) == DecodeAll(s)
      decreases |t|
    {
      var m := FindEntity(t, 0);
      if m.None? {
        break;
      }
      var p, k := m.value.0, m.value.1;
      var i := ParseInt64(t[p + 2..p + 2 + k]).0;
      DecodeAllStep(t, p, k);
      t := t[0..p] + [Rune(i)] + t[p + k + 3..];
    }
    r := TrimSpace(t);
    DecodeEntitiesComplete(s);
  }

  /** One round of the loop keeps what the loop ends with. */
  lemma DecodeAllStep(t: string, p: nat, k: nat)
    requires FindEntity(t, 0) == Some((p, k))
    ensures EntityAt(t, p, k)
    ensures DecodeAll(t) == DecodeAll(t[0..p] + [Rune(ParseInt64(t[p + 2..p + 2 + k]).0)] + t[p + k + 3..])
  {
  }

  /** A slice of text without a match has none either. */
  lemma NoEntityInSlice(s: string, a: nat, b: nat)
    requires a <= b <= |s|
    requires !HasEntity(s)
    ensures !HasEntity(s[a..b])
  {
    var u := s[a..b];
    forall p, k | EntityAt(u, p, k) ensures false {
      assert p + k + 3 <= |u| == b - a;
      assert forall i :: p + 2 <= i < p + 2 + k ==> u[i] == s[a + i];
      assert u[p + 2..p + 2 + k] == s[a + p + 2..a + p + 2 + k];
      assert u[p] == s[a + p] && u[p + 1] == s[a + p + 1] && u[p + 2 + k] == s[a + p + 2 + k];
      assert EntityAt(s, a + p, k);
    }
  }

  /** Text without a match decodes to itself, trimmed. */
  lemma DecodeEntitiesPlain(s: string)
    requires !HasEntity(s)
    ensures DecodeEntities(s) == TrimSpace(s)
  {
  }

  /** decodeEntities never leaves a match of `&#\d+;`. */
  lemma DecodeEntitiesComplete(s: string)
    ensures !HasEntity(DecodeEntities(s))
  {
    var t := DecodeAll(s);
    TrimSpaceSpec(t);
    var a, b :| TrimmedAt(t, TrimSpace(t), a, b);
    NoEntityInSlice(t, a, b);
  }

  /* ---------- HTML2Text and HTML2Markdown ---------- */

  const BrSpaced: string := "<br />"
  const BrTight: string := "<br/>"

  /** `rxBR.ReplaceAllString(s, "\n")` with `<br ?/>`: one left-to-right
    * pass replacing each match by a newline. */
  function ReplaceBR(s: string): (r: string)
    ensures !Contains(s, BrSpaced) && !Contains(s, BrTight) ==> r == s
    decreases |s|
  {
    if HasPrefix(s, BrSpaced) then
      assert OccursAt(s, BrSpaced, 0);
      "\n" + ReplaceBR(s[|BrSpaced|..])
    else if HasPrefix(s, BrTight) then
      assert OccursAt(s, BrTight, 0);
      "\n" + ReplaceBR(s[|BrTight|..])
    else if s == [] then []
    else
      ContainsTail(s, BrSpaced);
      ContainsTail(s, BrTight);
      [s[0]] + ReplaceBR(s[1..])
  }

  /** Text without a newline at the start of the output was copied from
    * the start of the input. */
  lemma {:induction false} ReplaceBRPrefix(s: string, t: string)
    requires '\n' !in t
    requires HasPrefix(ReplaceBR(s), t)
    ensures HasPrefix(s, t)
    decreases |s|
  {
    if t != [] {
      var r := ReplaceBR(s);
      assert r[0] == t[0];
      if !(HasPrefix(s, BrSpaced) || HasPrefix(s, BrTight)) {
        assert r == [s[0]] + ReplaceBR(s[1..]);
        assert HasPrefix(ReplaceBR(s[1..]), t[1..]) by {
          assert ReplaceBR(s[1..])[..|t| - 1] == r[1..|t|];
        }
        ReplaceBRPrefix(s[1..], t[1..]);
      }
    }
  }

  /** rxBR leaves no line-break tag behind, not even one its own
    * replacements could have brought together. */
  lemma {:induction false} ReplaceBRComplete(s: string)
    ensures !Contains(ReplaceBR(s), BrSpaced) && !Contains(ReplaceBR(s), BrTight)
    decreases |s|
  {
    var r := ReplaceBR(s);
    if HasPrefix(s, BrSpaced) || HasPrefix(s, BrTight) {
      var rest := if HasPrefix(s, BrSpaced) then s[|BrSpaced|..] else s[|BrTight|..];
      ReplaceBRComplete(rest);
      assert r == "\n" + ReplaceBR(rest);
      NoTagAfterNewline(ReplaceBR(rest), BrSpaced);
      NoTagAfterNewline(ReplaceBR(rest), BrTight);
    } else if s != [] {
      ReplaceBRComplete(s[1..]);
      assert r == [s[0]] + ReplaceBR(s[1..]);
      if OccursAt(r, BrSpaced, 0) {
        ReplaceBRPrefix(s, BrSpaced);
      }
      if OccursAt(r, BrTight, 0) {
        ReplaceBRPrefix(s, BrTight);
      }
      NoTagAfterFirst(s[0], ReplaceBR(s[1..]), BrSpaced);
      NoTagAfterFirst(s[0], ReplaceBR(s[1..]), BrTight);
    }
  }

  /** A tag can only occur after one leading character at position 0 or
    * in the rest. */
  lemma NoTagAfterFirst(c: char, u: string, tag: string)
    requires !Contains(u, tag)
    requires !OccursAt([c] + u, tag, 0)
    ensures !Contains([c] + u, tag)
  {
    var w := [c] + u;
    forall i: nat | i <= |w| && OccursAt(w, tag, i) ensures false {
      assert i >= 1;
      assert w[i..i + |tag|] == u[i - 1..i - 1 + |tag|];
      assert OccursAt(u, tag, i - 1);
    }
  }

  /** A leading newline starts no tag. */
  lemma NoTagAfterNewline(u: string, tag: string)
    requires !Contains(u, tag)
    requires tag != [] && tag[0] == '<'
    ensures !Contains("\n" + u, tag)
  {
    NoTagAfterFirst('\n', u, tag);
  }

  /** The rewriting table of HTML2Markdown, applied in this order. */
  const MarkdownTable: seq<(string, string)> := [
    ("<p>", ""),
    ("</p>", "\n\n"),
    ("<br /><br />", "\n\n"),
    ("<br/><br/>", "\n\n"),
    ("<br />", "  \n"),
    ("<br/>", "  \n"),
    ("<i>", "*"),
    ("</i>", "*"),
    ("<em>", "*"),
    ("</em>", "*"),
    ("<strong>", "**"),
    ("</strong>", "**"),
    ("<b>", "**"),
    ("</b>", "**")
  ]

  /** Every pattern of the table is a tag. */
  predicate TagTable(table: seq<(string, string)>)
  {
    forall i :: 0 <= i < |table| ==> table[i].0 != [] && table[i].0[0] == '<'
  }

  lemma MarkdownTableTags()
    ensures TagTable(MarkdownTable)
  {
  }

  /** The `for` loop over the table: each pattern replaced everywhere, one
    * pattern after another. */
  function ReplaceEach(s: string, table: seq<(string, string)>): string
    requires TagTable(table)
    decreases |table|
  {
    if table == [] then s
    else ReplaceEach(ReplaceAll(s, table[0].0, table[0].1), table[1..])
  }

  /** A pattern that starts with '<' cannot occur in text without '<'. */
  lemma NoTagWithoutAngle(s: string, tag: string)
    requires '<' !in s
    requires tag != [] && tag[0] == '<'
    ensures !Contains(s, tag)
  {
  }

  /** Text without any '<' goes through the tag table unchanged. */
  lemma {:induction false} ReplaceEachPlain(s: string, table: seq<(string, string)>)
    requires TagTable(table)
    requires '<' !in s
    ensures ReplaceEach(s, table) == s
    decreases |table|
  {
    if table != [] {
      NoTagWithoutAngle(s, table[0].0);
      ReplaceEachPlain(s, table[1..]);
    }
  }

  /** pkg/gr/text.go `HTML2Text`; `sanitize` stands for the sanitiser that
    * keeps only `br` elements. */
  function HTML2Text(sanitize: string -> string, s: string): string
  {
    ReplaceBR(DecodeEntities(TidyText(sanitize(s))))
  }

  /** pkg/gr/text.go `HTML2Markdown`; `sanitize` stands for the sanitiser
    * that keeps `br`, `i`, `em`, `strong`, `b` and `p` elements. */
  function HTML2Markdown(sanitize: string -> string, s: string): string
  {
    MarkdownTableTags();
    ReplaceEach(DecodeEntities(TidyText(sanitize(s))), MarkdownTable)
  }

  /** The plain-text form never holds a line-break tag. */
  lemma HTML2TextNoBreakTags(sanitize: string -> string, s: string)
    ensures !Contains(HTML2Text(sanitize, s), BrSpaced)
    ensures !Contains(HTML2Text(sanitize, s), BrTight)
  {
    ReplaceBRComplete(DecodeEntities(TidyText(sanitize(s))));
  }

  /** Once tidied and decoded text holds no '<', the Markdown and the
    * plain-text forms agree: both are that text. */
  lemma HTML2FormsAgree(sanitize: string -> string, s: string)
    requires '<' !in DecodeEntities(TidyText(sanitize(s)))
    ensures HTML2Markdown(sanitize, s) == DecodeEntities(TidyText(sanitize(s)))
    ensures HTML2Text(sanitize, s) == HTML2Markdown(sanitize, s)
  {
    var d := DecodeEntities(TidyText(sanitize(s)));
    MarkdownTableTags();
    ReplaceEachPlain(d, MarkdownTable);
    NoTagWithoutAngle(d, BrSpaced);
    NoTagWithoutAngle(d, BrTight);
  }

  const LetterA: string := "&#65;"

  lemma LetterAMatch()
    ensures FindEntity(LetterA, 0) == Some((0, 2))
  {
    assert DigitRun(LetterA, 4) == 0;
    assert DigitRun(LetterA, 3) == 1;
    assert DigitRun(LetterA, 2) == 2;
  }

  lemma LetterADecoded()
    ensures DecodeAt(LetterA, 0, 2) == "A"
  {
    LetterAMatch();
    assert LetterA[2..4] == IntToDec(65);
    ParseFormatInt64(65);
  }

  /** A decimal reference becomes the character it names. */
  lemma DecodeEntitiesExample()
    ensures DecodeEntities(LetterA) == "A"
  {
    LetterAMatch();
    LetterADecoded();
    DecodeEntitiesPlain("A");
    TrimSpaceKeeps("A");
  }
}
