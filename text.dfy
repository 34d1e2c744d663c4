/** The handful of java.lang.String and java.lang.Integer operations the codec relies on,
    written out so that their edge cases are explicit. */
module Text {

  /** A Java `int`. */
  newtype Int32 = x: int | -0x8000_0000 <= x < 0x8000_0000

  // ---------------------------------------------------------------------------
  // String.trim(): strips every leading and trailing char at or below U+0020.
  // ---------------------------------------------------------------------------

  predicate IsTrimmable(c: char) { c <= ' ' }

  /** A string that `trim` leaves alone: empty, or its ends are not trimmable. */
  predicate IsTrimmed(s: string) {
    |s| == 0 || (!IsTrimmable(s[0]) && !IsTrimmable(s[|s| - 1]))
  }

  /** The first index at or after `lo` whose char is not trimmable (or |s|). */
  function TrimLo(s: string, lo: nat): (r: nat)
    requires lo <= |s|
    ensures lo <= r <= |s|
    ensures forall i :: lo <= i < r ==> IsTrimmable(s[i])
    ensures r < |s| ==> !IsTrimmable(s[r])
    decreases |s| - lo
  {
    if lo < |s| && IsTrimmable(s[lo]) then TrimLo(s, lo + 1) else lo
  }

  /** Moves `hi` down past the trimmable chars that end s[lo..hi]. */
  function TrimHi(s: string, lo: nat, hi: nat): (r: nat)
    requires lo <= hi <= |s|
    ensures lo <= r <= hi
    ensures forall i :: r <= i < hi ==> IsTrimmable(s[i])
    ensures lo < r ==> !IsTrimmable(s[r - 1])
  {
    if lo < hi && IsTrimmable(s[hi - 1]) then TrimHi(s, lo, hi - 1) else hi
  }

  /** The bounds [lo, hi) that String.trim keeps: everything before lo and from hi on is
      trimmable, and a non-empty kept part starts and ends with a non-trimmable char. */
  function TrimBounds(s: string): (b: (nat, nat))
    ensures b.0 <= b.1 <= |s|
    ensures forall i :: 0 <= i < b.0 ==> IsTrimmable(s[i])
    ensures forall i :: b.1 <= i < |s| ==> IsTrimmable(s[i])
    ensures b.0 < b.1 ==> !IsTrimmable(s[b.0]) && !IsTrimmable(s[b.1 - 1])
  {
    var lo := TrimLo(s, 0);
    (lo, TrimHi(s, lo, |s|))
  }

  /** Java's `String.trim()`. */
  function Trim(s: string): (r: string)
    ensures IsTrimmed(r) && |r| <= |s|
  {
    var (lo, hi) := TrimBounds(s);
    s[lo..hi]
  }

  // ---------------------------------------------------------------------------
  // String.isBlank(): empty or made only of Character.isWhitespace code points.
  // ---------------------------------------------------------------------------

  /** Character.isWhitespace: the space, line and paragraph separators of Unicode
      except the non-breaking ones (U+00A0, U+2007, U+202F), and U+0009-U+000D and U+001C-U+001F. */
  predicate IsWhitespace(c: char) {
    ('\U{9}' <= c <= '\U{D}') || ('\U{1C}' <= c <= ' ')
    || c == '\U{1680}' || ('\U{2000}' <= c <= '\U{2006}') || ('\U{2008}' <= c <= '\U{200A}')
    || c == '\U{2028}' || c == '\U{2029}' || c == '\U{205F}' || c == '\U{3000}'
  }

  predicate IsBlank(s: string) {
    forall i :: 0 <= i < |s| ==> IsWhitespace(s[i])
  }

  // ---------------------------------------------------------------------------
  // String.repeat(count)
  // ---------------------------------------------------------------------------

  /** `pad` concatenated `n` times. */
  function Repeat(pad: string, n: nat): (r: string)
    ensures |r| == n * |pad|
    ensures |pad| == 1 ==> forall i :: 0 <= i < |r| ==> r[i] == pad[0]
  {
    if n == 0 then "" else pad + Repeat(pad, n - 1)
  }

  // ---------------------------------------------------------------------------
  // Capitalisation used to form accessor names: name.substring(0, 1).toUpperCase()
  // ---------------------------------------------------------------------------

  function UpperAscii(c: char): char {
    if 'a' <= c <= 'z' then (c as int - 'a' as int + 'A' as int) as char else c
  }

  function Capitalize(s: string): (r: string)
    requires |s| > 0
    ensures |r| == |s| && r[0] == UpperAscii(s[0]) && r[1..] == s[1..]
  {
    [UpperAscii(s[0])] + s[1..]
  }

  // ---------------------------------------------------------------------------
  // Integer.toString(int) and new Integer(String) (= Integer.parseInt(s, 10))
  // ---------------------------------------------------------------------------

  predicate IsDigit(c: char) { '0' <= c <= '9' }

  predicate AllDigits(s: string) {
    forall i :: 0 <= i < |s| ==> IsDigit(s[i])
  }

  function DigitChar(d: nat): (c: char)
    requires d < 10
    ensures IsDigit(c) && c as int - '0' as int == d
  {
    ('0' as int + d) as char
  }

  /** The value of a string of decimal digits, most significant first (leading zeros allowed). */
  function DecimalValue(s: string): nat
    requires AllDigits(s)
  {
    if |s| == 0 then 0
    else 10 * DecimalValue(s[..|s| - 1]) + (s[|s| - 1] as int - '0' as int)
  }

  /** The shortest decimal spelling of `m`. */
  function Digits(m: nat): (r: string)
    ensures |r| > 0 && AllDigits(r) && DecimalValue(r) == m
    ensures |r| > 1 ==> r[0] != '0'
  {
    if m < 10 then [DigitChar(m)]
    else
      var r := Digits(m / 10) + [DigitChar(m % 10)];
      assert r[..|r| - 1] == Digits(m / 10);
      r
  }

  /** Integer.toString: a minus sign for negative values, then the shortest digits. */
  function IntToString(n: int): (r: string)
    ensures |r| > 0 && IsTrimmed(r)
  {
    if n < 0 then "-" + Digits(-n) else Digits(n)
  }

  predicate IsSign(c: char) { c == '-' || c == '+' }

  /** The grammar Integer.parseInt(s, 10) accepts: a sign or a digit first, then digits,
      and at least one digit in all. */
  predicate IsIntLiteral(s: string) {
    |s| > 0 && AllDigits(s[1..]) && (IsDigit(s[0]) || (IsSign(s[0]) && |s| > 1))
  }

  /** The value a literal spells: the sign applied to the decimal value of its digits. */
  function LiteralValue(s: string): int
    requires IsIntLiteral(s)
  {
    if IsDigit(s[0]) then DecimalValue(s)
    else if s[0] == '-' then 0 - (DecimalValue(s[1..]) as int)
    else DecimalValue(s[1..])
  }

  /** Integer(String): an optional '+' or '-', at least one digit, nothing else,
      and the signed value must fit in 32 bits; None stands for NumberFormatException. */
  function ParseInt(s: string): (r: Option<Int32>)
    ensures r.Some? <==> IsIntLiteral(s) && -0x8000_0000 <= LiteralValue(s) < 0x8000_0000
    ensures r.Some? ==> r.value as int == LiteralValue(s)
    ensures r.Some? ==> |s| > 0 && (IsDigit(s[0]) || s[0] == '-' || s[0] == '+') && AllDigits(s[1..])
    ensures r.Some? && IsDigit(s[0]) ==> r.value as int == DecimalValue(s)
    ensures |s| > 0 && AllDigits(s) && DecimalValue(s) < 0x8000_0000 ==> r == Some(DecimalValue(s) as Int32)
  {
    if |s| == 0 then None
    else
      var negative := s[0] == '-';
      var digits := if s[0] == '-' || s[0] == '+' then s[1..] else s;
      if |digits| == 0 || !AllDigits(digits) then None
      else
        var v: int := if negative then 0 - (DecimalValue(digits) as int) else DecimalValue(digits);
        if -0x8000_0000 <= v < 0x8000_0000 then Some(v as Int32) else None
  }

  datatype Option<+T> = None | Some(value: T)

  /** Integer.toString and Integer(String) are inverse on every `int`. */
  lemma ParseIntToString(n: Int32)
    ensures ParseInt(IntToString(n as int)) == Some(n)
  {
    var s := IntToString(n as int);
    if n < 0 {
      assert s[1..] == Digits(-(n as int));
    }
  }

  /** Leading zeros are accepted: "016" is 16. */
  lemma ParseLeadingZeros()
    ensures ParseInt("016") == Some(16)
    ensures ParseInt("-0042") == Some(-42)
  {
    assert DecimalValue("0") == 0;
    assert DecimalValue("01") == 1 by { assert "01"[..1] == "0"; }
    assert DecimalValue("016") == 16 by { assert "016"[..2] == "01"; }
    assert DecimalValue("00") == 0 by { assert "00"[..1] == "0"; }
    assert DecimalValue("004") == 4 by { assert "004"[..2] == "00"; }
    assert DecimalValue("0042") == 42 by { assert "0042"[..3] == "004"; }
    assert "-0042"[1..] == "0042";
  }

  /** Signed literals carry their sign. */
  lemma ParseSigned()
    ensures ParseInt("-16") == Some(-16)
    ensures ParseInt("+5") == Some(5)
  {
    assert DecimalValue("1") == 1;
    assert DecimalValue("16") == 16 by { assert "16"[..1] == "1"; }
    assert "-16"[1..] == "16";
    assert DecimalValue("5") == 5;
    assert "+5"[1..] == "5";
  }

  /** One below Integer.MIN_VALUE is refused. */
  lemma ParseRejectsUnderflow()
    ensures ParseInt("-2147483649") == None
  {
    assert DecimalValue("2") == 2;
    assert DecimalValue("21") == 21 by { assert "21"[..1] == "2"; }
    assert DecimalValue("214") == 214 by { assert "214"[..2] == "21"; }
    assert DecimalValue("2147") == 2147 by { assert "2147"[..3] == "214"; }
    assert DecimalValue("21474") == 21474 by { assert "21474"[..4] == "2147"; }
    assert DecimalValue("214748") == 214748 by { assert "214748"[..5] == "21474"; }
    assert DecimalValue("2147483") == 2147483 by { assert "2147483"[..6] == "214748"; }
    assert DecimalValue("21474836") == 21474836 by { assert "21474836"[..7] == "2147483"; }
    assert DecimalValue("214748364") == 214748364 by { assert "214748364"[..8] == "21474836"; }
    assert DecimalValue("2147483649") == 2147483649 by { assert "2147483649"[..9] == "214748364"; }
    assert "-2147483649"[1..] == "2147483649";
  }

  /** Text that is not a literal is refused: empty, a lone sign, stray characters. */
  lemma ParseRejects()
    ensures ParseInt("") == None
    ensures ParseInt("-") == None
    ensures ParseInt("54.") == None
    ensures ParseInt(" 5") == None
  {
    assert !IsDigit("54."[2]);
    assert !IsDigit(" 5"[0]);
  }

  /** One past Integer.MAX_VALUE is refused. */
  lemma ParseRejectsOverflow()
    ensures ParseInt("2147483648") == None
  {
    assert DecimalValue("2") == 2;
    assert DecimalValue("21") == 21 by { assert "21"[..1] == "2"; }
    assert DecimalValue("214") == 214 by { assert "214"[..2] == "21"; }
    assert DecimalValue("2147") == 2147 by { assert "2147"[..3] == "214"; }
    assert DecimalValue("21474") == 21474 by { assert "21474"[..4] == "2147"; }
    assert DecimalValue("214748") == 214748 by { assert "214748"[..5] == "21474"; }
    assert DecimalValue("2147483") == 2147483 by { assert "2147483"[..6] == "214748"; }
    assert DecimalValue("21474836") == 21474836 by { assert "21474836"[..7] == "2147483"; }
    assert DecimalValue("214748364") == 214748364 by { assert "214748364"[..8] == "21474836"; }
    assert DecimalValue("2147483648") == 2147483648 by { assert "2147483648"[..9] == "214748364"; }
  }

  // ---------------------------------------------------------------------------
  // Facts about trim used by the round-trip law
  // ---------------------------------------------------------------------------

  /** trim does not change a string that has no trimmable ends. */
  lemma TrimOfTrimmed(s: string)
    requires IsTrimmed(s)
    ensures Trim(s) == s
  {
    if |s| > 0 {
      assert TrimLo(s, 0) == 0;
      assert TrimHi(s, 0, |s|) == |s|;
    }
  }

  /** trim removes right padding made of spaces, and nothing more. */
  lemma TrimPadded(s: string, n: nat)
    requires IsTrimmed(s)
    ensures Trim(s + Repeat(" ", n)) == s
  {
    var p := s + Repeat(" ", n);
    var (lo, hi) := TrimBounds(p);
    assert forall i :: |s| <= i < |p| ==> p[i] == ' ';
    if |s| > 0 {
      assert p[0] == s[0] && p[|s| - 1] == s[|s| - 1];
      assert lo == 0;
      assert hi == |s|;
      assert p[..|s|] == s;
    } else {
      assert lo == hi;
    }
  }
}
