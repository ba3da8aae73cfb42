/**
 * Literal arguments: the numeric check `real_number` made before every conversion,
 * the conversion itself (`atof` on the strings that pass that check), and
 * `prepare_string`, which strips the quotes from the argument of `print`/`printnl`.
 */
module Literals {
  import opened CNum

  // ---------------------------------------------------------------------------
  // real_number

  /** A character `real_number` refuses: a letter, or punctuation other than '.' and '-'. */
  predicate IsRejected(c: char) {
    (IsAlpha(c) || IsPunct(c)) && c != '.' && c != '-'
  }

  /** No character of `s` is refused. */
  predicate IsNumeric(s: string) {
    forall i :: 0 <= i < |s| ==> !IsRejected(s[i])
  }

  /** `real_number(s)`: walks the string and stops at the first refused character. */
  method RealNumber(s: string) returns (ok: bool)
    ensures ok <==> IsNumeric(s)
  {
    var i := 0;
    while i < |s|
      invariant 0 <= i <= |s|
      invariant forall k :: 0 <= k < i ==> !IsRejected(s[k])
    {
      if IsRejected(s[i]) {
        return false;
      }
      i := i + 1;
    }
    return true;
  }

  // ---------------------------------------------------------------------------
  // atof

  function DigitValue(c: char): int {
    c as int - '0' as int
  }

  /** Length of the run of decimal digits starting at `i`. */
  function DigitRun(s: string, i: nat): (n: nat)
    requires i <= |s|
    ensures i + n <= |s|
    ensures forall k :: i <= k < i + n ==> IsDigit(s[k])
    ensures i + n == |s| || !IsDigit(s[i + n])
    decreases |s| - i
  {
    if i < |s| && IsDigit(s[i]) then 1 + DigitRun(s, i + 1) else 0
  }

  /** The number a string of decimal digits denotes. */
  function Decimal(ds: string): int {
    if ds == [] then 0 else Decimal(ds[..|ds| - 1]) * 10 + DigitValue(ds[|ds| - 1])
  }

  /** The value of the digits after a decimal point: `0.d1d2...`. */
  function Fraction(ds: string): real {
    if ds == [] then 0.0 else (DigitValue(ds[0]) as real + Fraction(ds[1..])) / 10.0
  }

  /** Length of the run of white space starting at `i`. */
  function SpaceRun(s: string, i: nat): (n: nat)
    requires i <= |s|
    ensures i + n <= |s|
    ensures forall k :: i <= k < i + n ==> IsSpace(s[k])
    ensures i + n == |s| || !IsSpace(s[i + n])
    decreases |s| - i
  {
    if i < |s| && IsSpace(s[i]) then 1 + SpaceRun(s, i + 1) else 0
  }

  /**
   * The number at the head of a text with no letters and no white space in front: an
   * optional sign, the longest run of digits, optionally a point and a second run of
   * digits; 0 when neither run has a digit.
   */
  function Number(s: string): real {
    var neg := |s| > 0 && s[0] == '-';
    var start := if |s| > 0 && (s[0] == '-' || s[0] == '+') then 1 else 0;
    var n1 := DigitRun(s, start);
    var dot := start + n1;
    var n2 := if dot < |s| && s[dot] == '.' then DigitRun(s, dot + 1) else 0;
    var frac := if n2 > 0 then Fraction(s[dot + 1..dot + 1 + n2]) else 0.0;
    var magnitude := Decimal(s[start..dot]) as real + frac;
    if n1 + n2 == 0 then 0.0 else if neg then -magnitude else magnitude
  }

  /**
   * `atof` on a string that `real_number` accepted: leading white space is skipped
   * (`real_number` lets it through), then the number at the head is read. Letters
   * cannot occur, so the exponent, `inf`, `nan` and hexadecimal forms of `atof` never
   * arise.
   */
  function Atof(s: string): real
    requires IsNumeric(s)
  {
    Number(s[SpaceRun(s, 0)..])
  }

  /** White space in front of a number changes nothing: `atof` reads past it. */
  lemma AtofSkipsSpace(ws: string, t: string)
    requires forall k :: 0 <= k < |ws| ==> IsSpace(ws[k])
    requires t == [] || !IsSpace(t[0])
    requires IsNumeric(ws + t)
    ensures IsNumeric(t)
    ensures Atof(ws + t) == Number(t)
  {
    var s := ws + t;
    assert forall k :: 0 <= k < |t| ==> t[k] == s[|ws| + k];
    SpaceRunOf(s, 0, |ws|);
    assert s[|ws|..] == t;
  }

  lemma {:induction false} SpaceRunOf(s: string, i: nat, j: nat)
    requires i <= j <= |s|
    requires forall k :: i <= k < j ==> IsSpace(s[k])
    requires j == |s| || !IsSpace(s[j])
    ensures SpaceRun(s, i) == j - i
    decreases j - i
  {
    if i < j {
      SpaceRunOf(s, i + 1, j);
    }
  }

  /** A token left in an uninitialised slot may start with white space: " 5" still converts to 5. */
  lemma AtofOfPaddedFive()
    ensures IsNumeric(" 5") && Atof(" 5") == 5.0
  {
    assert " 5" == " " + "5";
    AtofSkipsSpace(" ", "5");
    assert DigitRun("5", 0) == 1;
    assert "5"[0..1] == "5";
    assert Decimal("5") == 5;
  }

  // ---------------------------------------------------------------------------
  // Decimal rendering, the partner of Atof

  function DigitChar(d: int): (c: char)
    requires 0 <= d < 10
    ensures IsDigit(c) && DigitValue(c) == d
  {
    (d + '0' as int) as char
  }

  /** The decimal digits of a natural number, most significant first. */
  function NatDigits(n: nat): (s: string)
    ensures |s| >= 1
    ensures forall k :: 0 <= k < |s| ==> IsDigit(s[k])
  {
    if n < 10 then [DigitChar(n)] else NatDigits(n / 10) + [DigitChar(n % 10)]
  }

  /** An integer as a program would write it: a '-' for negative numbers, then its digits. */
  function IntText(n: int): string {
    if n < 0 then "-" + NatDigits(-n) else NatDigits(n)
  }

  lemma {:induction false} DecimalOfDigits(n: nat)
    ensures Decimal(NatDigits(n)) == n
  {
    if n >= 10 {
      var s := NatDigits(n);
      assert s[..|s| - 1] == NatDigits(n / 10);
      DecimalOfDigits(n / 10);
    }
  }

  lemma {:induction false} RunOfDigits(s: string, i: nat)
    requires i <= |s|
    requires forall k :: i <= k < |s| ==> IsDigit(s[k])
    ensures DigitRun(s, i) == |s| - i
    decreases |s| - i
  {
    if i < |s| {
      RunOfDigits(s, i + 1);
    }
  }

  /** A run of digits, possibly after a '-', passes `real_number`. */
  lemma DigitsAreNumeric(s: string, start: nat)
    requires start < |s| && (start == 0 || (start == 1 && s[0] == '-'))
    requires forall k :: start <= k < |s| ==> IsDigit(s[k])
    ensures IsNumeric(s)
  {
  }

  /** A run of digits converts to the number it denotes. */
  lemma AtofOfNatDigits(s: string)
    requires |s| > 0 && forall k :: 0 <= k < |s| ==> IsDigit(s[k])
    requires IsNumeric(s)
    ensures Atof(s) == Decimal(s) as real
  {
    RunOfDigits(s, 0);
    assert SpaceRun(s, 0) == 0 && s[0..] == s;
    assert !(s[0] == '-' || s[0] == '+');
    assert DigitRun(s, 0) == |s|;
    assert s[0..|s|] == s;
  }

  /** A '-' then a run of digits converts to minus the number the digits denote. */
  lemma AtofOfNegDigits(s: string)
    requires 1 < |s| && s[0] == '-' && forall k :: 1 <= k < |s| ==> IsDigit(s[k])
    requires IsNumeric(s)
    ensures Atof(s) == -(Decimal(s[1..]) as real)
  {
    RunOfDigits(s, 1);
    assert SpaceRun(s, 0) == 0 && s[0..] == s;
    assert DigitRun(s, 1) == |s| - 1;
    assert s[1..|s|] == s[1..];
  }

  /** Every integer the program writes as a literal passes `real_number` and converts back to itself. */
  lemma AtofOfIntText(n: int)
    ensures IsNumeric(IntText(n))
    ensures Atof(IntText(n)) == n as real
  {
    var s := IntText(n);
    if n < 0 {
      assert s[1..] == NatDigits(-n);
      DigitsAreNumeric(s, 1);
      AtofOfNegDigits(s);
      DecimalOfDigits(-n);
    } else {
      DigitsAreNumeric(s, 0);
      AtofOfNatDigits(s);
      DecimalOfDigits(n);
    }
  }

  /** A point followed by digits adds the fraction they denote. */
  lemma AtofOfFraction()
    ensures IsNumeric("2.5") && Atof("2.5") == 2.5
  {
    assert SpaceRun("2.5", 0) == 0 && "2.5"[0..] == "2.5";
    assert DigitRun("2.5", 0) == 1 && DigitRun("2.5", 2) == 1;
    assert "2.5"[0..1] == "2" && "2.5"[2..3] == "5";
    assert Decimal("2") == 2 && Fraction("5") == 0.5;
  }

  /** The digits before the point may be missing. */
  lemma AtofOfBareFraction()
    ensures IsNumeric("-.5") && Atof("-.5") == -0.5
  {
    assert SpaceRun("-.5", 0) == 0 && "-.5"[0..] == "-.5";
    assert DigitRun("-.5", 1) == 0 && DigitRun("-.5", 2) == 1;
    assert "-.5"[2..3] == "5" && "-.5"[1..1] == "";
    assert Fraction("5") == 0.5;
  }

  /** Only the longest valid prefix is converted: a second sign ends the number. */
  lemma AtofOfPrefix()
    ensures IsNumeric("1-2") && Atof("1-2") == 1.0
  {
    assert SpaceRun("1-2", 0) == 0 && "1-2"[0..] == "1-2";
    assert DigitRun("1-2", 1) == 0;
    assert DigitRun("1-2", 0) == 1;
    assert "1-2"[0..1] == "1";
    assert Decimal("1") == 1;
  }

  /** A lone sign has no digits and converts to 0. */
  lemma AtofOfLoneSign()
    ensures IsNumeric("-") && Atof("-") == 0.0
  {
    assert SpaceRun("-", 0) == 0 && "-"[0..] == "-";
    assert DigitRun("-", 1) == 0;
  }

  /** An exponent and a leading '+' are refused before any conversion. */
  lemma RefusedLiterals()
    ensures !IsNumeric("1e5") && !IsNumeric("+3")
  {
    assert IsRejected("1e5"[1]);
    assert IsRejected("+3"[0]);
  }

  // ---------------------------------------------------------------------------
  // prepare_string

  /** The argument of `print` is accepted when its first and last characters are '"'. */
  predicate IsQuoted(s: string)
    requires |s| >= 1
  {
    s[0] == '"' && s[|s| - 1] == '"'
  }

  /**
   * What `prepare_string(s, l, temp)` leaves in `temp` before its terminating NUL:
   * the characters strictly between the first and the `l`-th, none when `l < 2`.
   */
  function Inner(s: string, l: int): (t: string)
    requires l <= |s|
    ensures |t| == if l < 2 then 0 else l - 2
    ensures forall k :: 0 <= k < |t| ==> t[k] == s[k + 1]
  {
    if l < 2 then [] else s[1..l - 1]
  }

  /** The text `print` shows for its argument `s` (called with `l` the length of `s`). */
  function Unquote(s: string): string {
    Inner(s, |s|)
  }

  /** Quoting a text and stripping the quotes gives the text back. */
  lemma UnquoteQuoted(x: string)
    ensures IsQuoted("\"" + x + "\"")
    ensures Unquote("\"" + x + "\"") == x
  {
    var q := "\"" + x + "\"";
    assert q[1..|q| - 1] == x;
  }

  /** A single '"' counts as quoted and prints nothing. */
  lemma LoneQuotePrintsNothing()
    ensures IsQuoted("\"") && Unquote("\"") == ""
  {
  }

  /** `prepare_string(s, l, temp)`: copies `s[1..l-1]` into `temp` and terminates it. */
  method PrepareString(s: string, l: int, temp: array<char>)
    requires l <= |s|
    requires 1 <= temp.Length && l - 1 <= temp.Length
    modifies temp
    ensures temp[..|Inner(s, l)|] == Inner(s, l)
    ensures temp[|Inner(s, l)|] == '\0'
    ensures forall k :: |Inner(s, l)| < k < temp.Length ==> temp[k] == old(temp[k])
  {
    var i := 0;
    while i < l - 2
      invariant 0 <= i && (i <= l - 2 || i == 0)
      invariant forall k :: 0 <= k < i ==> temp[k] == s[k + 1]
      invariant forall k :: i <= k < temp.Length ==> temp[k] == old(temp[k])
    {
      temp[i] := s[i + 1];
      i := i + 1;
    }
    temp[i] := '\0';
  }
}
