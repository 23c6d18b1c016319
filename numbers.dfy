/** Go integer semantics and the number formatting and parsing of `fmt`
  * and `strconv` that the program uses. */
module Numbers {
  import opened Strings
  import opened Wrappers

  const MinInt64: int := -0x8000_0000_0000_0000
  const MaxInt64: int := 0x7FFF_FFFF_FFFF_FFFF
  const MaxUint64: int := 0xFFFF_FFFF_FFFF_FFFF

  /** Durations and times are nanoseconds, as Go's time.Duration. */
  const Second: int := 1_000_000_000
  const Minute: int := 60 * Second
  const Hour: int := 60 * Minute

  /** Go's int64, used for every Goodreads ID. */
  type Int64 = x: int | MinInt64 <= x <= MaxInt64

  /** Go's `/` on integers: the quotient truncated toward zero. */
  function GoDiv(a: int, b: int): (q: int)
    requires b > 0
    ensures a >= 0 ==> q == a / b
    ensures a < 0 ==> q == -((-a) / b)
  {
    if a >= 0 then a / b else -((-a) / b)
  }

  /** Go's `%` on integers: the remainder takes the sign of the dividend. */
  function GoRem(a: int, b: int): (r: int)
    requires b > 0
    ensures a == GoDiv(a, b) * b + r
    ensures a >= 0 ==> 0 <= r < b
    ensures a < 0 ==> -b < r <= 0
  {
    a - GoDiv(a, b) * b
  }

  function DigitChar(d: nat): (c: char)
    requires d < 10
    ensures IsDigit(c)
  {
    "0123456789"[d]
  }

  function DigitValue(c: char): (d: nat)
    requires IsDigit(c)
    ensures d < 10 && DigitChar(d) == c
  {
    c as int - '0' as int
  }

  predicate AllDigits(s: string)
  {
    forall i :: 0 <= i < |s| ==> IsDigit(s[i])
  }

  /** The decimal digits of `n`, most significant first, no leading zero. */
  function NatToDec(n: nat): (s: string)
    ensures |s| >= 1 && AllDigits(s)
    ensures n > 0 ==> s[0] != '0'
    ensures n == 0 <==> s == "0"
  {
    if n < 10 then [DigitChar(n)] else NatToDec(n / 10) + [DigitChar(n % 10)]
  }

  /** The value of a string of decimal digits. */
  function DecValue(s: string): (n: nat)
    requires AllDigits(s)
  {
    if s == [] then 0 else DecValue(s[..|s| - 1]) * 10 + DigitValue(s[|s| - 1])
  }

  lemma {:induction false} DecValueOfNatToDec(n: nat)
    ensures DecValue(NatToDec(n)) == n
  {
    if n >= 10 {
      var s := NatToDec(n);
      assert s[..|s| - 1] == NatToDec(n / 10);
      DecValueOfNatToDec(n / 10);
    }
  }

  /** A leading zero does not change the value of a digit string. */
  lemma {:induction false} DecValueZeroPrefix(s: string)
    requires AllDigits(s)
    ensures AllDigits("0" + s) && DecValue("0" + s) == DecValue(s)
    decreases |s|
  {
    if s != [] {
      var t := "0" + s;
      assert t[..|t| - 1] == "0" + s[..|s| - 1];
      assert t[|t| - 1] == s[|s| - 1];
      DecValueZeroPrefix(s[..|s| - 1]);
    }
  }

  /** Zero-padding keeps a digit string's value. */
  lemma {:induction false} PadDigitsValue(s: string, width: nat)
    requires AllDigits(s)
    ensures AllDigits(PadDigits(s, width)) && DecValue(PadDigits(s, width)) == DecValue(s)
    decreases width - |s|
  {
    if |s| < width {
      DecValueZeroPrefix(s);
      PadDigitsValue("0" + s, width);
    }
  }

  /** Different numbers print differently. */
  lemma NatToDecInjective(m: nat, n: nat)
    requires NatToDec(m) == NatToDec(n)
    ensures m == n
  {
    DecValueOfNatToDec(m);
    DecValueOfNatToDec(n);
  }

  /** fmt's `%d` and strconv.FormatInt(x, 10). */
  function IntToDec(x: int): (s: string)
    ensures |s| >= 1 && '.' !in s && '/' !in s
    ensures forall i :: 0 <= i < |s| ==> IsDigit(s[i]) || s[i] == '-'
    ensures x >= 0 ==> AllDigits(s)
    ensures x < 0 ==> s[0] == '-' && AllDigits(s[1..])
  {
    if x >= 0 then NatToDec(x) else "-" + NatToDec(-x)
  }

  /** The sign shows in the first character; the rest is the magnitude. */
  lemma IntToDecSign(x: int)
    ensures (x >= 0) == (IntToDec(x)[0] != '-')
    ensures x >= 0 ==> IntToDec(x) == NatToDec(x)
    ensures x < 0 ==> IntToDec(x)[1..] == NatToDec(-x)
  {
    if x >= 0 {
      assert IsDigit(NatToDec(x)[0]);
    }
  }

  lemma IntToDecInjective(x: int, y: int)
    requires IntToDec(x) == IntToDec(y)
    ensures x == y
  {
    IntToDecSign(x);
    IntToDecSign(y);
    if x >= 0 {
      NatToDecInjective(x, y);
    } else {
      NatToDecInjective(-x, -y);
    }
  }

  /** The result of strconv.ParseUint(s, 10, 64): digits are consumed left
    * to right; the first non-digit is a syntax error and a value past the
    * uint64 range is a range error, whichever comes first. */
  datatype UintScan = UintOk(n: nat) | UintSyntax | UintRange

  function ScanUint(s: string, acc: nat): (r: UintScan)
    requires acc <= MaxUint64
    ensures r.UintOk? ==> r.n <= MaxUint64
    decreases |s|
  {
    if s == [] then UintOk(acc)
    else if !IsDigit(s[0]) then UintSyntax
    else if acc * 10 + DigitValue(s[0]) > MaxUint64 then UintRange
    else ScanUint(s[1..], acc * 10 + DigitValue(s[0]))
  }

  function ParseUint(s: string): UintScan
  {
    if s == [] then UintSyntax else ScanUint(s, 0)
  }

  /** strconv.ParseInt(s, 10, 64) with its error ignored, as the program
    * does: a syntax error gives 0, a range error gives the int64 bound of
    * the same sign. `ok` says whether there was no error. */
  function ParseInt64(s: string): (r: (Int64, bool))
    ensures s == "" ==> r == (0, false)
  {
    var neg := s != [] && s[0] == '-';
    var body := if s != [] && (s[0] == '+' || s[0] == '-') then s[1..] else s;
    match ParseUint(body)
    case UintSyntax => (0, false)
    case UintRange => (if neg then MinInt64 else MaxInt64, false)
    case UintOk(n) =>
      if !neg && n > MaxInt64 then (MaxInt64, false)
      else if neg && n > -MinInt64 then (MinInt64, false)
      else
        var v: int := if neg then -(n as int) else n as int;
        (v, true)
  }

  /** Digits read left to right onto an accumulator, as ParseUint does. */
  function Horner(s: string, acc: nat): nat
    requires AllDigits(s)
  {
    if s == [] then acc else Horner(s[1..], acc * 10 + DigitValue(s[0]))
  }

  lemma {:induction false} HornerGrows(s: string, acc: nat)
    requires AllDigits(s)
    ensures Horner(s, acc) >= acc
  {
    if s != [] { HornerGrows(s[1..], acc * 10 + DigitValue(s[0])); }
  }

  lemma {:induction false} HornerSnoc(s: string, c: char, acc: nat)
    requires AllDigits(s) && IsDigit(c)
    ensures Horner(s + [c], acc) == Horner(s, acc) * 10 + DigitValue(c)
  {
    if s != [] {
      assert (s + [c])[1..] == s[1..] + [c];
      HornerSnoc(s[1..], c, acc * 10 + DigitValue(s[0]));
    }
  }

  lemma {:induction false} HornerIsDecValue(s: string)
    requires AllDigits(s)
    ensures Horner(s, 0) == DecValue(s)
  {
    if s != [] {
      var t := s[..|s| - 1];
      assert s == t + [s[|s| - 1]];
      HornerIsDecValue(t);
      HornerSnoc(t, s[|s| - 1], 0);
    }
  }

  /** ParseUint reads a digit string that fits in uint64 without error. */
  lemma {:induction false} ScanUintDigits(s: string, acc: nat)
    requires AllDigits(s) && acc <= MaxUint64
    requires Horner(s, acc) <= MaxUint64
    ensures ScanUint(s, acc) == UintOk(Horner(s, acc))
  {
    if s != [] {
      var next := acc * 10 + DigitValue(s[0]);
      HornerGrows(s[1..], next);
      ScanUintDigits(s[1..], next);
    }
  }

  /** Reading back a printed int64 gives the same value: the decimal IDs
    * written to the icon queue file load unchanged. */
  lemma ParseFormatInt64(x: Int64)
    ensures ParseInt64(IntToDec(x)) == (x, true)
  {
    var m: nat := if x >= 0 then x as int else -(x as int);
    var d := NatToDec(m);
    DecValueOfNatToDec(m);
    HornerIsDecValue(d);
    ScanUintDigits(d, 0);
    if x < 0 {
      assert IntToDec(x)[1..] == d;
    }
  }

  function Pow10(k: nat): (p: nat)
    ensures p >= 1
  {
    if k == 0 then 1 else 10 * Pow10(k - 1)
  }

  /** fmt's `%.<prec>f` on an exact decimal value: rounded half to even,
    * with a leading "-" for negative values. */
  function FormatFixed(r: real, prec: nat): (s: string)
    ensures |s| >= 1
    ensures prec > 0 ==> '.' in s
  {
    var a := if r < 0.0 then -r else r;
    var scaled := a * (Pow10(prec) as real);
    var q := scaled.Floor;
    var frac := scaled - q as real;
    var n: nat := if frac > 0.5 || (frac == 0.5 && q % 2 == 1) then q + 1 else q;
    var digits := PadDigits(NatToDec(n), prec + 1);
    var body := if prec == 0 then digits
                else digits[..|digits| - prec] + "." + digits[|digits| - prec..];
    assert prec > 0 ==> body[|digits| - prec] == '.';
    (if r < 0.0 then "-" else "") + body
  }

  /** Left-pads a digit string with zeros to length `width`. */
  function PadDigits(s: string, width: nat): (t: string)
    ensures |t| == if |s| >= width then |s| else width
    ensures t == seq(|t| - |s|, _ => '0') + s
    decreases width - |s|
  {
    if |s| >= width then s else PadDigits("0" + s, width)
  }

  /** strconv.ParseFloat for plain decimal notation: an optional sign and
    * digits with at most one '.', at least one digit. */
  predicate IsDecimalSyntax(s: string)
  {
    var body := if s != [] && (s[0] == '+' || s[0] == '-') then s[1..] else s;
    (forall i :: 0 <= i < |body| ==> IsDigit(body[i]) || body[i] == '.')
    && DotCount(body) <= 1
    && exists i :: 0 <= i < |body| && IsDigit(body[i])
  }

  function DotCount(s: string): nat
  {
    if s == [] then 0 else (if s[0] == '.' then 1 else 0) + DotCount(s[1..])
  }

  /** The value of a decimal string, or None when ParseFloat would fail. */
  function ParseDecimal(s: string): (r: Option<real>)
    ensures r.Some? <==> IsDecimalSyntax(s)
  {
    if !IsDecimalSyntax(s) then None
    else
      var neg := s[0] == '-';
      var body := if s[0] == '+' || s[0] == '-' then s[1..] else s;
      var v := MantissaValue(body, 0.0, false, 1.0);
      Some(if neg then -v else v)
  }

  /** Accumulates the value of digits and one optional '.', left to right;
    * `scale` is the weight of the next fractional digit. */
  function MantissaValue(s: string, acc: real, afterDot: bool, scale: real): real
  {
    if s == [] then acc
    else if s[0] == '.' then MantissaValue(s[1..], acc, true, 0.1)
    else if !IsDigit(s[0]) then acc
    else if afterDot then MantissaValue(s[1..], acc + (DigitValue(s[0]) as real) * scale, true, scale / 10.0)
    else MantissaValue(s[1..], acc * 10.0 + DigitValue(s[0]) as real, false, scale)
  }
  /** Before any '.', MantissaValue reads digits as ParseUint does. */
  lemma {:induction false} MantissaOfDigits(s: string, acc: nat, scale: real)
    requires AllDigits(s)
    ensures MantissaValue(s, acc as real, false, scale) == Horner(s, acc) as real
  {
    if s != [] {
      MantissaOfDigits(s[1..], acc * 10 + DigitValue(s[0]), scale);
    }
  }

  /** A non-empty string of digits parses to its integer value. */
  lemma ParseDecimalOfDigits(s: string)
    requires |s| >= 1 && AllDigits(s)
    ensures ParseDecimal(s) == Some(DecValue(s) as real)
  {
    assert IsDigit(s[0]);
    NoDots(s);
    assert IsDecimalSyntax(s);
    MantissaOfDigits(s, 0, 1.0);
    HornerIsDecValue(s);
  }

  lemma {:induction false} NoDots(s: string)
    requires AllDigits(s)
    ensures DotCount(s) == 0
  {
    if s != [] { NoDots(s[1..]); }
  }


}
