/** The day key the scheduler compares holidays by:
    `date.toISOString().slice(0, 10)`. ECMAScript writes a year from 0 through
    9999 with four digits and any other year as a sign followed by six digits,
    then `-MM-DD`; the scheduler keeps the first ten characters. */
module IsoDate {
  import opened Gregorian

  function Pow10(n: nat): int {
    if n == 0 then 1 else 10 * Pow10(n - 1)
  }

  function DigitChar(n: int): char
    requires 0 <= n <= 9
  {
    ('0' as int + n) as char
  }

  /** Decimal value of a string of digits (most significant first). */
  function DigitsValue(s: string): int {
    if |s| == 0 then 0
    else DigitsValue(s[..|s| - 1]) * 10 + (s[|s| - 1] as int - '0' as int)
  }

  /** The lowest `width` decimal digits of `n`, zero-padded on the left. */
  function FixedDigits(n: int, width: nat): (s: string)
    requires 0 <= n
    ensures |s| == width
    ensures forall i :: 0 <= i < width ==> '0' <= s[i] <= '9'
    ensures n < Pow10(width) ==> DigitsValue(s) == n
  {
    if width == 0 then []
    else
      var s := FixedDigits(n / 10, width - 1) + [DigitChar(n % 10)];
      assert s[..|s| - 1] == FixedDigits(n / 10, width - 1);
      s
  }

  /** The year field of `Date.prototype.toISOString`. */
  function YearText(y: int): (r: string)
    ensures |r| == (if 0 <= y <= 9999 then 4 else 7)
  {
    if 0 <= y <= 9999 then FixedDigits(y, 4)
    else if y > 9999 then "+" + FixedDigits(y, 6)
    else "-" + FixedDigits(-y, 6)
  }

  /** The date part of `toISOString` for a calendar date. */
  function DateText(c: Date): (t: string)
    requires ValidDate(c)
    ensures |t| == |YearText(c.year)| + 6
  {
    YearText(c.year) + "-" + FixedDigits(c.month, 2) + "-" + FixedDigits(c.day, 2)
  }

  /** `toISOString().slice(0, 10)` of midnight of day `d`. */
  function IsoKey(d: int): (k: string)
    ensures |k| == 10
  {
    DateText(FromDayNumber(d))[..10]
  }

  /** Reads a `YYYY-MM-DD` key back into a calendar date. */
  function DateOfKey(k: string): Date
    requires |k| == 10
  {
    Date(DigitsValue(k[..4]), DigitsValue(k[5..7]), DigitsValue(k[8..10]))
  }

  /** In years 0 through 9999 the date text is exactly `YYYY-MM-DD`: ten
      characters, dashes at positions 4 and 7, and the three fields between. */
  lemma FourDigitLayout(c: Date)
    requires ValidDate(c) && 0 <= c.year <= 9999
    ensures |DateText(c)| == 10
    ensures DateText(c)[4] == '-' && DateText(c)[7] == '-'
    ensures DateText(c)[..4] == FixedDigits(c.year, 4)
    ensures DateText(c)[5..7] == FixedDigits(c.month, 2)
    ensures DateText(c)[8..10] == FixedDigits(c.day, 2)
  {
    var y, m, dd := FixedDigits(c.year, 4), FixedDigits(c.month, 2), FixedDigits(c.day, 2);
    var t := DateText(c);
    assert t == y + "-" + m + "-" + dd;
    assert t[..4] == y;
    assert t[5..7] == m;
    assert t[8..10] == dd;
  }

  /** A date of years 0 through 9999 reads back from its own text. */
  lemma DateTextReadsBack(c: Date)
    requires ValidDate(c) && 0 <= c.year <= 9999
    ensures |DateText(c)| == 10 && DateOfKey(DateText(c)) == c
  {
    FourDigitLayout(c);
    var t := DateText(c);
    assert Pow10(2) == 100 && Pow10(4) == 10000;
    assert DigitsValue(t[..4]) == c.year;
    assert DigitsValue(t[5..7]) == c.month;
    assert DigitsValue(t[8..10]) == c.day;
  }

  /** For a year from 0 through 9999 the key is the full `YYYY-MM-DD` text and
      reads back to the date it was written from. */
  lemma KeyRoundTrip(d: int)
    requires InFourDigitYears(d)
    ensures IsoKey(d)[4] == '-' && IsoKey(d)[7] == '-'
    ensures DateOfKey(IsoKey(d)) == FromDayNumber(d)
  {
    var c := FromDayNumber(d);
    FourDigitYear(d);
    FourDigitLayout(c);
    DateTextReadsBack(c);
    assert IsoKey(d) == DateText(c);
  }

  /** Keys of years 0 through 9999 start with a digit; keys of later years
      start with `+` and keys of earlier years with `-`. */
  lemma KeyLeadsWithDigit(d: int)
    ensures '0' <= IsoKey(d)[0] <= '9' <==> InFourDigitYears(d)
    ensures !InFourDigitYears(d) ==>
              IsoKey(d)[0] == (if FromDayNumber(d).year > 9999 then '+' else '-')
  {
    FourDigitYear(d);
    var c := FromDayNumber(d);
    assert IsoKey(d)[0] == DateText(c)[0] == YearText(c.year)[0];
  }

  /** A day of years 0 through 9999 shares its key with no other day: keys of
      other years start with a sign, these with a digit. */
  lemma KeyInjective(d1: int, d2: int)
    requires InFourDigitYears(d1)
    requires IsoKey(d1) == IsoKey(d2)
    ensures d1 == d2
  {
    if !InFourDigitYears(d2) {
      KeyLeadsWithDigit(d1);
      KeyLeadsWithDigit(d2);
      assert false;
    }
    KeyRoundTrip(d1);
    KeyRoundTrip(d2);
  }

  /** The first days of year 10000 fall on January 1st and 2nd. */
  lemma EarlyDaysOfYear10000(k: int)
    requires 0 <= k < 31
    ensures FromDayNumber(DaysBeforeYear(10000) + k) == Date(10000, 1, k + 1)
  {
    var c := FromDayNumber(DaysBeforeYear(10000) + k);
    DayNumberWithinYear(c);
    if c.year < 10000 {
      YearsAreOrdered(c.year + 1, 10000);
    } else if c.year > 10000 {
      YearsAreOrdered(10001, c.year);
      YearStep(10000);
    }
    assert c.year == 10000;
    assert DaysBeforeMonth(10000, c.month) <= k;
    assert c.month == 1;
  }

  /** Beyond year 9999 the key is the signed six-digit year and the month. */
  lemma LongYearKey(d: int)
    requires FromDayNumber(d).year > 9999
    ensures IsoKey(d) == YearText(FromDayNumber(d).year) + "-" + FixedDigits(FromDayNumber(d).month, 2)
  {
    var c := FromDayNumber(d);
    var prefix := YearText(c.year) + "-" + FixedDigits(c.month, 2);
    assert DateText(c) == prefix + "-" + FixedDigits(c.day, 2);
    assert |prefix| == 10;
  }

  /** Beyond year 9999 the ten-character slice stops at the month, so two
      different days share a key: `KeyInjective` needs its year bound. */
  lemma KeyCollidesAfterYear9999()
    ensures IsoKey(DaysBeforeYear(10000)) == IsoKey(DaysBeforeYear(10000) + 1)
  {
    EarlyDaysOfYear10000(0);
    EarlyDaysOfYear10000(1);
    assert DaysBeforeYear(10000) + 0 == DaysBeforeYear(10000);
    LongYearKey(DaysBeforeYear(10000));
    LongYearKey(DaysBeforeYear(10000) + 1);
  }
}
