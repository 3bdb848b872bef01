/** Dates as text: Go's `"2006-01-02"` layout, which is the `full-date`
    production of RFC 3339 (section 5.6) with the day-of-month limits of its
    section 5.7, decimal numbers as `strconv.Itoa` writes them, and the byte
    order Go uses when it compares two strings with `<`. */
module DateText {
  import opened Wrappers
  import opened Calendar

  predicate IsDigit(c: char) {
    '0' <= c <= '9'
  }

  predicate AllDigits(s: string) {
    forall i :: 0 <= i < |s| ==> IsDigit(s[i])
  }

  function DigitChar(n: int): (c: char)
    requires 0 <= n <= 9
    ensures IsDigit(c)
  {
    (48 + n) as char
  }

  function DigitValue(c: char): int
    requires IsDigit(c)
  {
    (c as int) - 48
  }

  function Pow10(w: nat): (p: nat)
    ensures p >= 1
  {
    if w == 0 then 1 else 10 * Pow10(w - 1)
  }

  /** `n` written with exactly `w` digits, padded with zeros on the left. */
  function Digits(n: nat, w: nat): (s: string)
    ensures |s| == w && AllDigits(s)
  {
    if w == 0 then "" else Digits(n / 10, w - 1) + [DigitChar(n % 10)]
  }

  /** The number a string of decimal digits denotes. */
  function DecimalValue(s: string): nat
    requires AllDigits(s)
  {
    if s == [] then 0 else 10 * DecimalValue(s[..|s| - 1]) + DigitValue(s[|s| - 1])
  }

  /** Writing a number in `w` digits and reading it back gives the number. */
  lemma {:induction false} DigitsValue(n: nat, w: nat)
    requires n < Pow10(w)
    ensures DecimalValue(Digits(n, w)) == n
  {
    if w > 0 {
      DigitsValue(n / 10, w - 1);
      var s := Digits(n, w);
      assert s[..|s| - 1] == Digits(n / 10, w - 1);
    }
  }

  /** Reading a digit string and writing the number back in as many digits
      gives the string. */
  lemma {:induction false} ValueDigits(s: string)
    requires AllDigits(s)
    ensures DecimalValue(s) < Pow10(|s|)
    ensures Digits(DecimalValue(s), |s|) == s
  {
    if s != [] {
      var init := s[..|s| - 1];
      ValueDigits(init);
      var v := DecimalValue(s);
      assert v / 10 == DecimalValue(init) && v % 10 == DigitValue(s[|s| - 1]);
      assert s == init + [s[|s| - 1]];
    }
  }

  /** `strconv.Itoa` of a non-negative number: its shortest decimal form. */
  function NatToString(n: nat): (s: string)
    ensures |s| >= 1 && AllDigits(s)
  {
    if n < 10 then [DigitChar(n)] else NatToString(n / 10) + [DigitChar(n % 10)]
  }

  /** `strconv.Itoa`. */
  function IntToString(n: int): string {
    if n < 0 then "-" + NatToString(-n) else NatToString(n)
  }

  /** `NatToString` writes the number, with no leading zero. */
  lemma {:induction false} NatToStringValue(n: nat)
    ensures DecimalValue(NatToString(n)) == n
    ensures NatToString(n)[0] == '0' ==> n == 0
  {
    if n >= 10 {
      NatToStringValue(n / 10);
      var s := NatToString(n);
      assert s[..|s| - 1] == NatToString(n / 10);
    }
  }

  /** The `2006` element of a Go layout: at least four digits, sign in front. */
  function YearText(y: int): string {
    if y < 0 then "-" + YearDigits(-y) else YearDigits(y)
  }

  function YearDigits(n: nat): string {
    if n < 10000 then Digits(n, 4) else NatToString(n)
  }

  /** A number of at least `Pow10(k)` is written with more than `k` digits. */
  lemma {:induction false} NatToStringLong(n: nat, k: nat)
    requires n >= Pow10(k)
    ensures |NatToString(n)| > k
  {
    if k > 0 {
      assert n / 10 >= Pow10(k - 1);
      NatToStringLong(n / 10, k - 1);
    }
  }

  /** A year takes at least four characters, and more outside 0..9999. */
  lemma YearTextLength(y: int)
    ensures |YearText(y)| >= 4
    ensures |YearText(y)| == 4 <==> 0 <= y <= 9999
  {
    var n := if y < 0 then -y else y;
    if n >= 10000 {
      assert Pow10(4) == 10000;
      NatToStringLong(n, 4);
    }
  }

  /** `t.Format("2006-01-02")` of the midnight starting day `d`. */
  function Format(d: Date): string {
    YearText(d.year) + "-" + Digits(d.month, 2) + "-" + Digits(d.day, 2)
  }

  /** `time.Parse("2006-01-02", s)`: exactly four year digits, a dash, two
      month digits, a dash, two day digits and nothing else, naming a day
      that exists. */
  function Parse(s: string): Option<Date> {
    if |s| == 10 && s[4] == '-' && s[7] == '-'
       && AllDigits(s[..4]) && AllDigits(s[5..7]) && AllDigits(s[8..])
    then
      var y, m, d := DecimalValue(s[..4]), DecimalValue(s[5..7]), DecimalValue(s[8..]);
      if 1 <= m <= 12 && 1 <= d <= DaysInMonth(y, m) then Some(YMD(y, m, d)) else None
    else
      None
  }

  /** The zero `time.Time`, January 1 of year 1, which the Go code uses
      whenever it ignores a parse error. */
  const ZeroDate: Date := YMD(1, 1, 1)

  /** `date, _ := time.Parse("2006-01-02", s)`. */
  function ParseOrZero(s: string): Date {
    match Parse(s)
    case Some(d) => d
    case None => ZeroDate
  }

  predicate FourDigitYear(d: Date) {
    0 <= d.year <= 9999
  }

  /** Formatting a day of a four-digit year and parsing the text gives the
      day back. */
  lemma ParseFormat(d: Date)
    requires FourDigitYear(d)
    ensures Parse(Format(d)) == Some(d)
  {
    var s := Format(d);
    var ys, ms, ds := Digits(d.year, 4), Digits(d.month, 2), Digits(d.day, 2);
    assert |s| == 10 && s[4] == '-' && s[7] == '-' && s[..4] == ys && s[5..7] == ms && s[8..] == ds by {
      assert YearText(d.year) == ys;
      assert s == ys + "-" + ms + "-" + ds;
    }
    DigitsValue(d.year, 4);
    DigitsValue(d.month, 2);
    DigitsValue(d.day, 2);
  }

  /** Only the canonical text of a day parses: what `Parse` accepts is
      exactly what `Format` writes for a four-digit year. */
  lemma FormatParse(s: string, d: Date)
    ensures Parse(s) == Some(d) <==> FourDigitYear(d) && s == Format(d)
  {
    if Parse(s) == Some(d) {
      ValueDigits(s[..4]);
      ValueDigits(s[5..7]);
      ValueDigits(s[8..]);
      assert s == s[..4] + "-" + s[5..7] + "-" + s[8..];
    }
    if FourDigitYear(d) && s == Format(d) {
      ParseFormat(d);
    }
  }

  /** Different days have different texts. */
  lemma FormatInjective(x: Date, z: Date)
    requires Format(x) == Format(z) && FourDigitYear(z)
    ensures x == z
  {
    YearTextLength(x.year);
    YearTextLength(z.year);
    assert |Format(x)| == |YearText(x.year)| + 6 && |Format(z)| == |YearText(z.year)| + 6;
    ParseFormat(x);
    ParseFormat(z);
  }

  /** Go's `a < b` on strings: lexicographic order of the characters (the
      order of code points, which is the order of their UTF-8 bytes). */
  predicate LexLess(a: string, b: string)
    decreases |a|
  {
    if a == [] then b != []
    else if b == [] then false
    else if a[0] != b[0] then a[0] < b[0]
    else LexLess(a[1..], b[1..])
  }

  lemma {:induction false} LexLessAsymmetric(a: string, b: string)
    ensures LexLess(a, b) ==> !LexLess(b, a)
    ensures !LexLess(a, a)
    decreases |a|
  {
    if a != [] && b != [] && a[0] == b[0] {
      LexLessAsymmetric(a[1..], b[1..]);
    }
    if a != [] {
      LexLessAsymmetric(a[1..], a[1..]);
    }
  }

  lemma {:induction false} LexLessTotal(a: string, b: string)
    ensures a == b || LexLess(a, b) || LexLess(b, a)
    decreases |a|
  {
    if a != [] && b != [] && a[0] == b[0] {
      LexLessTotal(a[1..], b[1..]);
      if a[1..] == b[1..] {
        assert a == [a[0]] + a[1..] && b == [b[0]] + b[1..];
      }
    }
  }

  /** Comparing two texts whose first parts have equal length: the first
      parts decide unless they are equal. */
  lemma {:induction false} LexLessAppend(p: string, s: string, q: string, t: string)
    requires |p| == |q|
    ensures LexLess(p + s, q + t) == if p == q then LexLess(s, t) else LexLess(p, q)
    decreases |p|
  {
    if p != [] {
      assert (p + s)[1..] == p[1..] + s && (q + t)[1..] == q[1..] + t;
      LexLessAppend(p[1..], s, q[1..], t);
      if p[0] == q[0] && p[1..] == q[1..] {
        assert p == [p[0]] + p[1..] && q == [q[0]] + q[1..];
      }
    } else {
      assert p + s == s && q + t == t;
    }
  }

  /** Zero-padded numbers of one width compare as text as they do as numbers. */
  lemma {:induction false} DigitsOrder(n: nat, m: nat, w: nat)
    requires n < Pow10(w) && m < Pow10(w)
    ensures LexLess(Digits(n, w), Digits(m, w)) <==> n < m
    ensures Digits(n, w) == Digits(m, w) <==> n == m
  {
    if w > 0 {
      var hn, hm := Digits(n / 10, w - 1), Digits(m / 10, w - 1);
      var cn, cm := DigitChar(n % 10), DigitChar(m % 10);
      DigitsOrder(n / 10, m / 10, w - 1);
      LexLessAppend(hn, [cn], hm, [cm]);
      assert LexLess([cn], [cm]) <==> n % 10 < m % 10 by {
        assert [cn][1..] == [] && [cm][1..] == [];
      }
      assert n == 10 * (n / 10) + n % 10 && m == 10 * (m / 10) + m % 10;
      DigitsValue(n, w);
      DigitsValue(m, w);
    }
  }

  /** Sorting formatted days of four-digit years as text sorts them in time. */
  lemma FormatOrder(a: Date, b: Date)
    requires FourDigitYear(a) && FourDigitYear(b)
    ensures LexLess(Format(a), Format(b)) <==> DayNumber(a) < DayNumber(b)
  {
    var ya, ma, da := Digits(a.year, 4), Digits(a.month, 2), Digits(a.day, 2);
    var yb, mb, db := Digits(b.year, 4), Digits(b.month, 2), Digits(b.day, 2);
    assert Format(a) == ya + ("-" + (ma + ("-" + da))) by {
      assert YearText(a.year) == ya;
    }
    assert Format(b) == yb + ("-" + (mb + ("-" + db))) by {
      assert YearText(b.year) == yb;
    }
    LexLessAppend(ya, "-" + (ma + ("-" + da)), yb, "-" + (mb + ("-" + db)));
    LexLessAppend("-", ma + ("-" + da), "-", mb + ("-" + db));
    LexLessAppend(ma, "-" + da, mb, "-" + db);
    LexLessAppend("-", da, "-", db);
    DigitsOrder(a.year, b.year, 4);
    DigitsOrder(a.month, b.month, 2);
    DigitsOrder(a.day, b.day, 2);
    DayNumberOrder(a, b);
  }

  function EnglishWeekday(w: int): string
    requires 0 <= w < 7
  {
    if w == 0 then "Sunday" else if w == 1 then "Monday" else if w == 2 then "Tuesday"
    else if w == 3 then "Wednesday" else if w == 4 then "Thursday" else if w == 5 then "Friday"
    else "Saturday"
  }

  function EnglishMonth(m: int): string
    requires 1 <= m <= 12
  {
    if m == 1 then "January" else if m == 2 then "February" else if m == 3 then "March"
    else if m == 4 then "April" else if m == 5 then "May" else if m == 6 then "June"
    else if m == 7 then "July" else if m == 8 then "August" else if m == 9 then "September"
    else if m == 10 then "October" else if m == 11 then "November" else "December"
  }

  /** `t.Format("Monday, 2 January 2006")`. */
  function LongDate(d: Date): string {
    EnglishWeekday(Weekday(d)) + ", " + NatToString(d.day) + " "
      + EnglishMonth(d.month) + " " + YearText(d.year)
  }

  /** `t.Format(time.RFC3339)` of the midnight starting `d` in a zone whose
      offset designator is `zone` (`"Z"` for UTC). */
  function MidnightRfc3339(d: Date, zone: string): string {
    Format(d) + "T00:00:00" + zone
  }
}
