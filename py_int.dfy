/**
 * Python's `int(s)` on a string in base ten: surrounding whitespace is
 * ignored, an optional sign may precede the digits, leading zeros are
 * allowed and single underscores may separate digits. Anything else is a
 * ValueError, modelled as None.
 */
module PyInt {
  import opened Wrappers

  predicate IsDigit(ch: char) {
    '0' <= ch <= '9'
  }

  function DigitValue(ch: char): (d: nat)
    requires IsDigit(ch)
    ensures d < 10
  {
    (ch as int) - ('0' as int)
  }

  /**
   * The ASCII whitespace `int` strips: space, tab, newline, vertical tab,
   * form feed and carriage return. The separators 0x1c-0x1f count as
   * whitespace for `str.isspace` but not for `int`.
   */
  predicate IsSpace(ch: char) {
    ch == ' ' || ('\t' <= ch <= '\r')
  }

  function TrimStart(s: string): (t: string)
    ensures |t| <= |s| && t == s[|s| - |t|..]
    ensures |t| > 0 ==> !IsSpace(t[0])
    ensures forall i :: 0 <= i < |s| - |t| ==> IsSpace(s[i])
  {
    if |s| > 0 && IsSpace(s[0]) then TrimStart(s[1..]) else s
  }

  function TrimEnd(s: string): (t: string)
    ensures |t| <= |s| && t == s[..|t|]
    ensures |t| > 0 ==> !IsSpace(t[|t| - 1])
    ensures forall i :: |t| <= i < |s| ==> IsSpace(s[i])
  {
    if |s| > 0 && IsSpace(s[|s| - 1]) then TrimEnd(s[..|s| - 1]) else s
  }

  function Strip(s: string): string {
    TrimEnd(TrimStart(s))
  }

  /** Digits in groups separated by single underscores: digit (["_"] digit)*. */
  predicate DigitGroups(d: string) {
    && |d| > 0
    && IsDigit(d[0])
    && IsDigit(d[|d| - 1])
    && (forall i :: 0 <= i < |d| ==> IsDigit(d[i]) || d[i] == '_')
    && (forall i :: 0 <= i < |d| - 1 ==> d[i] != '_' || d[i + 1] != '_')
  }

  /** The value of a digit string, underscores ignored. */
  function DigitsValue(d: string): (n: nat)
    requires forall i :: 0 <= i < |d| ==> IsDigit(d[i]) || d[i] == '_'
  {
    if |d| == 0 then 0
    else if d[|d| - 1] == '_' then DigitsValue(d[..|d| - 1])
    else DigitsValue(d[..|d| - 1]) * 10 + DigitValue(d[|d| - 1])
  }

  /** `int(s)`; None where Python raises ValueError. */
  function ParseInt(s: string): (r: Option<int>)
    ensures r.Some? ==> |Strip(s)| > 0
  {
    var t := Strip(s);
    if |t| > 0 && (t[0] == '-' || t[0] == '+') then
      if DigitGroups(t[1..]) then
        var v: int := DigitsValue(t[1..]);
        Some(if t[0] == '-' then -v else v)
      else None
    else if DigitGroups(t) then Some(DigitsValue(t))
    else None
  }

  /** `str(n)` for a natural number: its shortest decimal digits. */
  function NatToString(n: nat): (s: string)
    ensures |s| > 0
    ensures forall i :: 0 <= i < |s| ==> IsDigit(s[i])
  {
    if n < 10 then ['0' + n as char]
    else NatToString(n / 10) + ['0' + (n % 10) as char]
  }

  /** `str(n)`. */
  function IntToString(n: int): (s: string)
    ensures |s| > 0 && IsDigit(s[|s| - 1])
  {
    if n < 0 then "-" + NatToString(-n) else NatToString(n)
  }

  lemma {:induction false} NatToStringValue(n: nat)
    ensures DigitGroups(NatToString(n))
    ensures DigitsValue(NatToString(n)) == n
  {
    var s := NatToString(n);
    if n >= 10 {
      NatToStringValue(n / 10);
      var p := NatToString(n / 10);
      assert s[..|s| - 1] == p;
    }
  }

  lemma StripNoSpace(s: string)
    requires |s| > 0 && !IsSpace(s[0]) && !IsSpace(s[|s| - 1])
    ensures Strip(s) == s
  {
  }

  lemma ParseNegativeRoundTrip(n: int)
    requires n > 0
    ensures ParseInt(IntToString(-n)) == Some(-n)
  {
    var s := IntToString(-n);
    StripNoSpace(s);
    var d := NatToString(n);
    NatToStringValue(n);
    assert s == "-" + d && s[0] == '-' && s[1..] == d;
  }

  lemma ParseNatRoundTrip(n: nat)
    ensures ParseInt(IntToString(n)) == Some(n)
  {
    var s := IntToString(n);
    StripNoSpace(s);
    NatToStringValue(n);
    assert IsDigit(s[0]);
  }

  /** Parsing what `str` prints gives the number back. */
  lemma ParseIntRoundTrip(n: int)
    ensures ParseInt(IntToString(n)) == Some(n)
  {
    if n < 0 {
      ParseNegativeRoundTrip(-n);
    } else {
      ParseNatRoundTrip(n);
    }
  }

  /**
   * A string whose first character is neither whitespace, a sign nor a
   * digit is no number, whatever follows it.
   */
  lemma ParseIntRejectsNonDigit(s: string)
    requires |s| > 0 && !IsSpace(s[0])
    requires !IsDigit(s[0]) && s[0] != '-' && s[0] != '+'
    ensures ParseInt(s) == None
  {
    assert TrimStart(s) == s;
    var t := Strip(s);
    if |t| > 0 {
      assert t[0] == s[0];
    }
  }

  /** The file separator 0x1c before a digit is no whitespace to `int`. */
  lemma ParseIntRejectsSeparator()
    ensures ParseInt("\U{1c}5") == None
  {
    ParseIntRejectsNonDigit("\U{1c}5");
  }

  /** A pair of underscores breaks the digit groups. */
  lemma PairBreaksGroups(d: string, k: nat)
    requires k + 1 < |d| && d[k] == '_' && d[k + 1] == '_'
    ensures !DigitGroups(d)
  {
  }

  /** TrimStart removes only whitespace, so it keeps every later character. */
  lemma TrimStartKeeps(s: string, i: nat)
    requires i < |s| && !IsSpace(s[i])
    ensures |s| - |TrimStart(s)| <= i
    ensures TrimStart(s)[i - (|s| - |TrimStart(s)|)] == s[i]
  {
  }

  /** TrimEnd removes only whitespace, so it keeps every earlier character. */
  lemma TrimEndKeeps(u: string, k: nat)
    requires k < |u| && !IsSpace(u[k])
    ensures k < |TrimEnd(u)|
    ensures forall m :: 0 <= m <= k ==> TrimEnd(u)[m] == u[m]
  {
  }

  /** Stripping removes only whitespace, so a pair of underscores survives it. */
  lemma PairSurvivesStrip(s: string, i: nat) returns (j: nat)
    requires i + 1 < |s| && s[i] == '_' && s[i + 1] == '_'
    ensures j + 1 < |Strip(s)| && Strip(s)[j] == '_' && Strip(s)[j + 1] == '_'
  {
    var u := TrimStart(s);
    assert Strip(s) == TrimEnd(u);
    TrimStartKeeps(s, i);
    TrimStartKeeps(s, i + 1);
    j := i - (|s| - |u|);
    TrimEndKeeps(u, j + 1);
  }

  /**
   * Two underscores in a row make the string no number, wherever they
   * stand: whitespace is the only thing stripped, so the pair lies inside
   * what is parsed.
   */
  lemma ParseIntRejectsDoubleUnderscore(s: string, i: nat)
    requires i + 1 < |s| && s[i] == '_' && s[i + 1] == '_'
    ensures ParseInt(s) == None
  {
    var j := PairSurvivesStrip(s, i);
    var t := Strip(s);
    if t[0] == '-' || t[0] == '+' {
      assert j > 0;
      PairBreaksGroups(t[1..], j - 1);
    } else {
      PairBreaksGroups(t, j);
    }
  }

  /** A pair beside trailing whitespace is refused. */
  lemma ParseIntRejectsPairBeforeSpace()
    ensures ParseInt("1__0 ") == None
  {
    var s := "1__0 ";
    assert s[1] == '_' && s[2] == '_';
    ParseIntRejectsDoubleUnderscore(s, 1);
  }

  /** A pair at the very start is refused. */
  lemma ParseIntRejectsLeadingPair()
    ensures ParseInt("__1") == None
  {
    var s := "__1";
    assert s[0] == '_' && s[1] == '_';
    ParseIntRejectsDoubleUnderscore(s, 0);
  }
}
