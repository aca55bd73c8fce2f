/**
 * The number patterns the queries test payload text against before a cast,
 * and the value the cast then produces:
 *   - `text ~ '^[0-9]+(\.[0-9]+)?$'` followed by `text::decimal` (amounts),
 *     the pattern as the statements write it;
 *   - `text ~ '^[0-9]+(.[0-9]+)?$'`, the same pattern as the database
 *     receives it: the statements are JavaScript template literals, where
 *     `\.` is an escape that yields a bare `.`, so the middle character may
 *     be any character and the cast can then fail;
 *   - `text ~ '^[0-9]+$'` followed by `text::int` (follower counts).
 * `decimal` is exact, so amounts are `real`s here.
 */
module NumberText {
  import opened Base

  predicate IsDigit(c: char) {
    '0' <= c <= '9'
  }

  predicate AllDigits(s: string) {
    forall i :: 0 <= i < |s| ==> IsDigit(s[i])
  }

  /** `s ~ '^[0-9]+$'`: one or more ASCII digits and nothing else. */
  predicate MatchesInteger(s: string) {
    |s| > 0 && AllDigits(s)
  }

  /** `s ~ '^[0-9]+(\.[0-9]+)?$'`: digits, optionally a dot and more digits. */
  predicate MatchesDecimal(s: string) {
    || MatchesInteger(s)
    || exists k :: 0 <= k < |s| && s[k] == '.' && MatchesInteger(s[..k]) && MatchesInteger(s[k + 1..])
  }

  function DigitValue(c: char): nat
    requires IsDigit(c)
  {
    c as int - '0' as int
  }

  /** The number a string of decimal digits denotes (most significant first). */
  function DigitsValue(s: string): nat
    requires AllDigits(s)
  {
    if s == [] then 0 else DigitsValue(s[..|s| - 1]) * 10 + DigitValue(s[|s| - 1])
  }

  function Pow10(n: nat): (r: nat)
    ensures r >= 1
  {
    if n == 0 then 1 else 10 * Pow10(n - 1)
  }

  /**
   * Left-to-right scan of `s[i..]`, `acc` holding the value of the digits
   * already read; NULL at the first character that is not a digit.
   */
  function ScanDigits(s: string, i: nat, acc: nat): (r: Option<nat>)
    requires i <= |s| && AllDigits(s[..i]) && acc == DigitsValue(s[..i])
    ensures r.Some? <==> AllDigits(s)
    ensures r.Some? ==> r.value == DigitsValue(s)
    decreases |s| - i
  {
    if i == |s| then
      assert s[..i] == s;
      Some(acc)
    else if IsDigit(s[i]) then
      assert s[..i + 1][..i] == s[..i];
      ScanDigits(s, i + 1, acc * 10 + DigitValue(s[i]))
    else
      None
  }

  /** `CASE WHEN s ~ '^[0-9]+$' THEN s::<integer> END`, without a width limit. */
  function ParseInteger(s: string): (r: Option<nat>)
    ensures r.Some? <==> MatchesInteger(s)
    ensures r.Some? ==> r.value == DigitsValue(s)
  {
    if s == [] then None else ScanDigits(s, 0, 0)
  }

  /** Position of the first `.` in `s`, or `|s|` when there is none. */
  function DotIndex(s: string): (k: nat)
    ensures k <= |s|
    ensures k < |s| ==> s[k] == '.'
    ensures forall i :: 0 <= i < k ==> s[i] != '.'
  {
    if s == [] then 0
    else if s[0] == '.' then 0
    else 1 + DotIndex(s[1..])
  }

  /** The value of `whole.fraction` when the fraction is written with `digits` digits. */
  function DecimalValue(whole: nat, fraction: nat, digits: nat): (r: real)
    ensures r >= 0.0
  {
    whole as real + fraction as real / Pow10(digits) as real
  }

  /**
   * `CASE WHEN s ~ '^[0-9]+(\.[0-9]+)?$' THEN s::decimal END`: the digits'
   * value, or the digits before the first dot plus those after it scaled by
   * their count.
   */
  function ParseDecimal(s: string): (r: Option<real>)
    ensures r.Some? <==> MatchesDecimal(s)
    ensures r.Some? ==> r.value >= 0.0
    ensures r.Some? && DotIndex(s) == |s| ==> MatchesInteger(s) && r.value == DigitsValue(s) as real
    ensures var k := DotIndex(s);
      r.Some? && k < |s| ==>
        && MatchesInteger(s[..k]) && MatchesInteger(s[k + 1..])
        && r.value == DecimalValue(DigitsValue(s[..k]), DigitsValue(s[k + 1..]), |s| - k - 1)
  {
    var k := DotIndex(s);
    if k == |s| then
      match ParseInteger(s)
      case None => None
      case Some(n) => Some(n as real)
    else
      match (ParseInteger(s[..k]), ParseInteger(s[k + 1..]))
      case (Some(whole), Some(fraction)) =>
        Some(DecimalValue(whole, fraction, |s| - k - 1))
      case _ =>
        assert !MatchesDecimal(s) by { DecimalSplitAtFirstDot(s, k); }
        None
  }

  /** A match of the decimal pattern with a dot splits at the first dot. */
  lemma DecimalSplitAtFirstDot(s: string, k: nat)
    requires k == DotIndex(s)
    ensures MatchesDecimal(s) && k < |s| ==> MatchesInteger(s[..k]) && MatchesInteger(s[k + 1..])
  {
    if MatchesDecimal(s) && k < |s| {
      assert !IsDigit(s[k]);
      var k' :| 0 <= k' < |s| && s[k'] == '.' && MatchesInteger(s[..k']) && MatchesInteger(s[k' + 1..]);
      DotIsFirst(s, k');
    }
  }

  /** A dot preceded only by digits is the first dot. */
  lemma DotIsFirst(s: string, k: nat)
    requires k < |s| && s[k] == '.' && AllDigits(s[..k])
    ensures DotIndex(s) == k
  {
    assert forall i :: 0 <= i < k ==> IsDigit(s[i]) by {
      forall i | 0 <= i < k ensures IsDigit(s[i]) {
        assert s[..k][i] == s[i];
      }
    }
  }

  /** The decimal digits of `n`, most significant first, as `n::text` prints them. */
  function NatText(n: nat): (t: string)
    ensures MatchesInteger(t)
    decreases n
  {
    var d := ['0' + (n % 10) as char];
    if n < 10 then d else NatText(n / 10) + d
  }

  lemma {:induction false} NatTextValue(n: nat)
    ensures DigitsValue(NatText(n)) == n
    decreases n
  {
    var t := NatText(n);
    if n >= 10 {
      NatTextValue(n / 10);
      assert t[..|t| - 1] == NatText(n / 10);
    }
  }

  /** Printing a count and reading it back with the integer pattern is the identity. */
  lemma IntegerRoundTrip(n: nat)
    ensures ParseInteger(NatText(n)) == Some(n)
    ensures ParseDecimal(NatText(n)) == Some(n as real)
  {
    NatTextValue(n);
    var t := NatText(n);
    assert DotIndex(t) == |t|;
  }

  lemma {:induction false} DotIndexAfterDigits(w: string, rest: string)
    requires AllDigits(w) && rest != [] && rest[0] == '.'
    ensures DotIndex(w + rest) == |w|
  {
    if w != [] {
      assert (w + rest)[1..] == w[1..] + rest;
      DotIndexAfterDigits(w[1..], rest);
    } else {
      assert w + rest == rest;
    }
  }

  /**
   * An amount printed as `whole.fraction` (the fraction's digits as printed)
   * is accepted and read back as whole + fraction / 10^digits.
   */
  lemma DecimalRoundTrip(whole: nat, fraction: nat)
    ensures var t := NatText(whole) + "." + NatText(fraction);
      ParseDecimal(t) == Some(DecimalValue(whole, fraction, |NatText(fraction)|))
  {
    NatTextValue(whole);
    NatTextValue(fraction);
    DigitsDotDigits(NatText(whole), NatText(fraction));
  }

  /** Two digit runs joined by a dot are read as the first plus the second scaled by its length. */
  lemma DigitsDotDigits(w: string, f: string)
    requires MatchesInteger(w) && MatchesInteger(f)
    ensures ParseDecimal(w + "." + f) == Some(DecimalValue(DigitsValue(w), DigitsValue(f), |f|))
  {
    var t := w + "." + f;
    assert DotIndex(t) == |w| by {
      assert t == w + ("." + f);
      DotIndexAfterDigits(w, "." + f);
    }
    assert t[..|w|] == w && t[|w| + 1..] == f && |t| - |w| - 1 == |f|;
    ParseDecimalAtDot(t, |w|, DigitsValue(w), DigitsValue(f));
  }

  /** With a dot at `k`, the value is the integer part plus the fraction scaled by its digit count. */
  lemma ParseDecimalAtDot(s: string, k: nat, whole: nat, fraction: nat)
    requires k == DotIndex(s) && k < |s|
    requires ParseInteger(s[..k]) == Some(whole) && ParseInteger(s[k + 1..]) == Some(fraction)
    ensures ParseDecimal(s) == Some(DecimalValue(whole, fraction, |s| - k - 1))
  {
  }

  /**
   * A sign, a letter, a missing integer part, a missing fraction or a second
   * dot makes the amount pattern fail, so the amount counts as no valid amount.
   */
  lemma RejectedAmountTexts()
    ensures ParseDecimal("-5") == None
    ensures ParseDecimal("abc") == None
    ensures ParseDecimal(".5") == None
    ensures ParseDecimal("5.") == None
    ensures ParseDecimal("1.2.3") == None
  {
    NoDigitAt("-5", 0);
    NoDigitAt("abc", 0);
    NoDigitAt(".5", 0);
    NoDigitAt("5.", 1);
    TwoDots();
  }

  lemma NoDigitAt(s: string, i: nat)
    requires i < |s| && !IsDigit(s[i]) && forall k :: 0 <= k < |s| && s[k] == '.' ==> k == 0 || k == |s| - 1
    ensures ParseDecimal(s) == None
  {
    NoDecimal(s, i);
  }

  lemma TwoDots()
    ensures ParseDecimal("1.2.3") == None
  {
    var s := "1.2.3";
    forall k | 0 <= k < |s| && s[k] == '.' ensures !MatchesInteger(s[..k]) || !MatchesInteger(s[k + 1..]) {
      if k == 1 {
        assert !IsDigit(s[k + 1..][1]);
      } else {
        assert !IsDigit(s[..k][1]);
      }
    }
    NoDecimal(s, 1);
  }

  /** Text that is no integer and splits at no dot into two integers fails the amount pattern. */
  lemma NoDecimal(s: string, i: nat)
    requires i < |s| && !IsDigit(s[i])
    requires forall k :: 0 <= k < |s| && s[k] == '.' ==> !MatchesInteger(s[..k]) || !MatchesInteger(s[k + 1..])
    ensures !MatchesDecimal(s) && ParseDecimal(s) == None
  {
  }

  /** Leading zeros are digits like any other: "007" reads as 7. */
  lemma LeadingZeros()
    ensures ParseDecimal("007") == Some(7.0)
    ensures ParseDecimal("0.50") == Some(0.5)
  {
    assert DotIndex("007") == 3;
    assert "007"[..2] == "00" && "00"[..1] == "0";
    assert DotIndex("0.50") == 1;
    assert "0.50"[..1] == "0" && "0.50"[2..] == "50" && "50"[..1] == "5";
  }

  /** Position of the first character of `s` that is not a digit, or `|s|` when there is none. */
  function NonDigitIndex(s: string): (k: nat)
    ensures k <= |s|
    ensures k < |s| ==> !IsDigit(s[k])
    ensures forall i :: 0 <= i < k ==> IsDigit(s[i])
  {
    if s == [] then 0
    else if !IsDigit(s[0]) then 0
    else 1 + NonDigitIndex(s[1..])
  }

  /**
   * `s ~ '^[0-9]+(.[0-9]+)?$'`, the amount pattern as the database receives
   * it: digits, optionally followed by any one character and more digits.
   */
  predicate MatchesSentAmount(s: string) {
    || MatchesInteger(s)
    || exists k :: 0 <= k < |s| && MatchesInteger(s[..k]) && MatchesInteger(s[k + 1..])
  }

  /** A text of the sent pattern that is not all digits splits at its first non-digit. */
  lemma SentAmountSplit(s: string)
    requires MatchesSentAmount(s) && !MatchesInteger(s)
    ensures var k := NonDigitIndex(s);
      0 < k < |s| - 1 && MatchesInteger(s[..k]) && MatchesInteger(s[k + 1..])
  {
    var k :| 0 <= k < |s| && MatchesInteger(s[..k]) && MatchesInteger(s[k + 1..]);
    assert forall i :: 0 <= i < k ==> IsDigit(s[i]) by {
      forall i | 0 <= i < k ensures IsDigit(s[i]) {
        assert s[..k][i] == s[i];
      }
    }
    assert forall i :: k < i < |s| ==> IsDigit(s[i]) by {
      forall i | k < i < |s| ensures IsDigit(s[i]) {
        assert s[k + 1..][i - k - 1] == s[i];
      }
    }
    assert !IsDigit(s[k]);
  }

  /** Every text the written pattern admits, the sent pattern admits too. */
  lemma DecimalMatchesSent(s: string)
    requires MatchesDecimal(s)
    ensures MatchesSentAmount(s)
  {
  }

  /** A statement aborts: a cast met text its target type does not accept. */
  datatype QueryError = IntegerOutOfRange | InvalidNumericSyntax

  /**
   * `s::decimal` on a text the sent pattern admits. All digits read as an
   * integer; around one other character, a dot makes the second run a
   * fraction and `e` or `E` makes it a power-of-ten exponent; any other
   * character is not numeric input and aborts the statement.
   */
  function CastNumeric(s: string): (r: Result<real, QueryError>)
    requires MatchesSentAmount(s)
    ensures var k := NonDigitIndex(s);
      r.Failure? <==> k < |s| && s[k] != '.' && s[k] != 'e' && s[k] != 'E'
    ensures r.Failure? ==> r.error == InvalidNumericSyntax
    ensures r.Success? ==> r.value >= 0.0
  {
    var k := NonDigitIndex(s);
    if k == |s| then
      Success(DigitsValue(s) as real)
    else
      SentAmountSplit(s);
      var whole, tail := DigitsValue(s[..k]), DigitsValue(s[k + 1..]);
      if s[k] == '.' then Success(DecimalValue(whole, tail, |s| - k - 1))
      else if s[k] == 'e' || s[k] == 'E' then Success((whole * Pow10(tail)) as real)
      else Failure(InvalidNumericSyntax)
  }

  /**
   * The written guard does what it is there for: every text it admits casts
   * without error, to the value `ParseDecimal` gives.
   */
  lemma IntendedGuardCastsCleanly(s: string)
    requires MatchesDecimal(s)
    ensures MatchesSentAmount(s) && CastNumeric(s) == Success(ParseDecimal(s).value)
  {
    var k := DotIndex(s);
    if k == |s| {
      assert NonDigitIndex(s) == |s|;
    } else {
      DecimalSplitAtFirstDot(s, k);
      assert forall i :: 0 <= i < k ==> IsDigit(s[i]) by {
        forall i | 0 <= i < k ensures IsDigit(s[i]) {
          assert s[..k][i] == s[i];
        }
      }
      NonDigitIndexAt(s, k);
    }
  }

  lemma {:induction false} NonDigitIndexAt(s: string, k: nat)
    requires k < |s| && !IsDigit(s[k]) && forall i :: 0 <= i < k ==> IsDigit(s[i])
    ensures NonDigitIndex(s) == k
  {
    if k > 0 {
      NonDigitIndexAt(s[1..], k - 1);
    }
  }

  /**
   * `CASE WHEN s ~ '^[0-9]+(.[0-9]+)?$' THEN s::decimal END` as the database
   * runs it: NULL when the sent pattern fails, otherwise the cast, which may
   * abort the statement.
   */
  function CastAmountAsSent(s: string): (r: Result<Option<real>, QueryError>)
    ensures r == Success(None) <==> !MatchesSentAmount(s)
    ensures MatchesDecimal(s) ==> r == Success(ParseDecimal(s))
    ensures r.Success? && r.value.Some? ==> r.value.value >= 0.0
    ensures r.Failure? ==> r.error == InvalidNumericSyntax
  {
    assert MatchesDecimal(s) ==> MatchesSentAmount(s) && CastNumeric(s) == Success(ParseDecimal(s).value) by {
      if MatchesDecimal(s) {
        IntendedGuardCastsCleanly(s);
      }
    }
    if !MatchesSentAmount(s) then Success(None)
    else
      match CastNumeric(s)
      case Success(v) => Success(Some(v))
      case Failure(err) => Failure(err)
  }

  /**
   * The two patterns disagree: "1,50" and "1x5" pass the sent pattern and
   * then abort the cast; "1e5" and "2E3" pass it and read as 100000 and 2000;
   * the written pattern reads all four as NULL.
   */
  lemma SentPatternAdmitsMore()
    ensures CastAmountAsSent("1,50") == Failure(InvalidNumericSyntax) && ParseDecimal("1,50") == None
    ensures CastAmountAsSent("1x5") == Failure(InvalidNumericSyntax) && ParseDecimal("1x5") == None
    ensures CastAmountAsSent("1e5") == Success(Some(100000.0)) && ParseDecimal("1e5") == None
    ensures CastAmountAsSent("2E3") == Success(Some(2000.0)) && ParseDecimal("2E3") == None
  {
    SentFails("1,50", 1);
    SentFails("1x5", 1);
    ExponentOne();
    ExponentTwo();
  }

  lemma SentFails(s: string, k: nat)
    requires 0 < k < |s| - 1 && !IsDigit(s[k]) && s[k] != '.' && s[k] != 'e' && s[k] != 'E'
    requires forall i :: 0 <= i < |s| && i != k ==> IsDigit(s[i])
    ensures CastAmountAsSent(s) == Failure(InvalidNumericSyntax) && ParseDecimal(s) == None
  {
    SentAt(s, k);
  }

  lemma ExponentOne()
    ensures CastAmountAsSent("1e5") == Success(Some(100000.0)) && ParseDecimal("1e5") == None
  {
    var s := "1e5";
    SentAt(s, 1);
    assert s[..1] == "1" && s[2..] == "5";
    assert DigitsValue("1") == 1 && DigitsValue("5") == 5;
    assert Pow10(5) == 100000;
  }

  lemma ExponentTwo()
    ensures CastAmountAsSent("2E3") == Success(Some(2000.0)) && ParseDecimal("2E3") == None
  {
    var s := "2E3";
    SentAt(s, 1);
    assert s[..1] == "2" && s[2..] == "3";
    assert DigitsValue("2") == 2 && DigitsValue("3") == 3;
    assert Pow10(3) == 1000;
  }

  /** A text of digits, one non-digit at `k` and digits again, as both patterns see it. */
  lemma SentAt(s: string, k: nat)
    requires 0 < k < |s| - 1 && !IsDigit(s[k]) && s[k] != '.'
    requires forall i :: 0 <= i < |s| && i != k ==> IsDigit(s[i])
    ensures MatchesSentAmount(s) && NonDigitIndex(s) == k
    ensures MatchesInteger(s[..k]) && MatchesInteger(s[k + 1..])
    ensures ParseDecimal(s) == None
  {
    NonDigitIndexAt(s, k);
    assert MatchesInteger(s[..k]) && MatchesInteger(s[k + 1..]);
    NoDecimal(s, k);
  }
}
