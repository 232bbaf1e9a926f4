/** How the backend renders dates: two-digit padding and the relative or
    absolute form shown for quiz, answer and account dates. The current time
    is a parameter. */
module Dates {
  import opened Text

  /** `("0" + n).slice(-2)`: the last two characters of the rendering of n
      after a leading "0". */
  function ToTwoDigits(n: int): (r: string)
    ensures |r| == 2
  {
    var s := "0" + IntToString(n);
    s[|s| - 2..]
  }

  /** The last character of a decimal rendering is the last digit. */
  lemma {:induction false} DecimalLastDigit(n: nat)
    ensures var d := Decimal(n); d[|d| - 1] == DigitChar(n % 10)
  {
  }

  /** For a non-negative n the result is exactly its last two decimal digits,
      zero padded. */
  lemma ToTwoDigitsIsLastTwoDigits(n: nat)
    ensures ToTwoDigits(n) == [DigitChar(n / 10 % 10), DigitChar(n % 10)]
  {
    var s := "0" + Decimal(n);
    if n >= 10 {
      DecimalLastDigit(n / 10);
      var d := Decimal(n / 10);
      assert Decimal(n) == d + [DigitChar(n % 10)];
      assert s[|s| - 2] == d[|d| - 1];
    } else {
      assert s == ['0', DigitChar(n)];
    }
  }

  /** A point in time as `Date`'s getters see it: month 0-11, hours 0-23, minutes 0-59. */
  datatype DateTime = DateTime(year: int, month: int, day: int, hours: int, minutes: int)

  predicate WellFormed(d: DateTime) {
    0 <= d.month < 12 && 0 <= d.hours < 24 && 0 <= d.minutes < 60
  }

  const MonthNames: seq<string> := ["Jan", "Feb", "Mar", "Apr", "May", "Jun", "Jul", "Aug", "Sep", "Oct", "Nov", "Dec"]

  /** `(hours % 12) || 12`: the hour on a twelve-hour clock. */
  function Hour12(hours: int): (r: int)
    requires 0 <= hours < 24
    ensures 1 <= r <= 12
    ensures r % 12 == hours % 12
  {
    if hours % 12 == 0 then 12 else hours % 12
  }

  function Meridiem(hours: int): (r: string)
    ensures r == "PM" || r == "AM"
    ensures r == "PM" <==> hours >= 12
  {
    if hours >= 12 then "PM" else "AM"
  }

  /** The clock part of the absolute form: "H:MM". */
  function ClockTime(d: DateTime): string
    requires WellFormed(d)
  {
    IntToString(Hour12(d.hours)) + ":" + ToTwoDigits(d.minutes)
  }

  /** The absolute form: "Mon D, YYYY H:MM AM", that is, its five words
      joined by single spaces. */
  function AbsoluteDate(d: DateTime): (r: string)
    requires WellFormed(d)
    ensures |r| > 3 && r[..3] == MonthNames[d.month]
    ensures r[|r| - 2..] == Meridiem(d.hours)
  {
    var words := DateWords(d);
    JoinFiveWords(words[0], words[1], words[2], words[3], words[4], ' ');
    MonthNameLength(d.month);
    Framed(words[0], [' '] + words[1] + [' '] + words[2] + [' '] + words[3] + [' '], words[4]);
    Join(words, ' ')
  }

  /** The five words of the absolute form. */
  function DateWords(d: DateTime): (w: seq<string>)
    requires WellFormed(d)
  {
    [MonthNames[d.month], IntToString(d.day) + ",", IntToString(d.year), ClockTime(d), Meridiem(d.hours)]
  }

  /** Every month name has three letters. */
  lemma MonthNameLength(m: int)
    requires 0 <= m < 12
    ensures |MonthNames[m]| == 3
  {
  }

  /** In `a + b + c`, `a` is the prefix and `c` the suffix. */
  lemma Framed(a: string, b: string, c: string)
    ensures (a + b + c)[..|a|] == a
    ensures (a + b + c)[|a| + |b|..] == c
  {
  }

  /** No month name holds a space. */
  lemma MonthNameHasNoSpace(m: int)
    requires 0 <= m < 12
    ensures ' ' !in MonthNames[m]
  {
    assert MonthNames[m] in MonthNames;
  }

  /** Five words joined by single separators: the first, the separated
      middle ones, and the last. */
  lemma JoinFiveWords(a: string, b: string, c: string, e: string, f: string, sep: char)
    ensures Join([a, b, c, e, f], sep) == a + ([sep] + b + [sep] + c + [sep] + e + [sep]) + f
  {
    var xs := [a, b, c, e, f];
    assert xs[1..][1..] == xs[2..] && xs[2..][1..] == xs[3..] && xs[3..][1..] == [f];
    var t3 := e + [sep] + f;
    assert Join(xs[3..], sep) == t3;
    var t2 := c + [sep] + t3;
    assert Join(xs[2..], sep) == t2;
    var t1 := b + [sep] + t2;
    assert Join(xs[1..], sep) == t1;
    assert Join(xs, sep) == a + [sep] + t1;
  }

  /** The clock part reads back as the hour and the two minute digits. */
  lemma ClockReadsBack(d: DateTime)
    requires WellFormed(d)
    ensures Split(ClockTime(d), ':') == [IntToString(Hour12(d.hours)), [DigitChar(d.minutes / 10), DigitChar(d.minutes % 10)]]
  {
    var hour := IntToString(Hour12(d.hours));
    var minutes := ToTwoDigits(d.minutes);
    ToTwoDigitsIsLastTwoDigits(d.minutes);
    RenderedIntHas(Hour12(d.hours), ':');
    SplitNoSeparator(minutes, ':');
    SplitAfterPiece(hour, minutes, ':');
  }

  /** Two-digit padding of a non-negative number holds no space. */
  lemma TwoDigitsHaveNoSpace(n: nat)
    ensures ' ' !in ToTwoDigits(n)
  {
    var t := ToTwoDigits(n);
    ToTwoDigitsIsLastTwoDigits(n);
    var tens, units := DigitChar(n / 10 % 10), DigitChar(n % 10);
    assert t == [tens, units];
    assert t[0] != ' ' && t[1] != ' ';
  }

  /** A character missing from two strings is missing from their concatenation. */
  lemma NotInConcat(c: char, a: string, b: string)
    requires c !in a && c !in b
    ensures c !in a + b
  {
    assert forall k :: 0 <= k < |a + b| ==> (a + b)[k] == if k < |a| then a[k] else b[k - |a|];
  }

  /** The clock part holds no space. */
  lemma ClockHasNoSpace(d: DateTime)
    requires WellFormed(d)
    ensures ' ' !in ClockTime(d)
  {
    var hour := IntToString(Hour12(d.hours));
    var minutes := ToTwoDigits(d.minutes);
    TwoDigitsHaveNoSpace(d.minutes);
    RenderedIntHas(Hour12(d.hours), ' ');
    NotInConcat(' ', hour, ":");
    NotInConcat(' ', hour + ":", minutes);
  }

  /** No word of the absolute form holds a space. */
  lemma DateWordsHaveNoSpace(d: DateTime)
    requires WellFormed(d)
    ensures |DateWords(d)| == 5 && NoSeparator(DateWords(d), ' ')
  {
    var words := DateWords(d);
    MonthNameHasNoSpace(d.month);
    ClockHasNoSpace(d);
    var day := IntToString(d.day);
    RenderedIntHas(d.day, ' ');
    RenderedIntHas(d.year, ' ');
    forall k | 0 <= k < |words[1]| ensures words[1][k] != ' ' {
      if k < |day| {
        assert words[1][k] == day[k];
      }
    }
  }

  /** Read word by word, the absolute form gives back the month's name, the
      day followed by a comma, the year, the twelve-hour clock hour and the
      two minute digits around a colon, and the meridiem. */
  lemma AbsoluteDateReadsBack(d: DateTime)
    requires WellFormed(d)
    ensures var p := Split(AbsoluteDate(d), ' ');
      && |p| == 5 && p[0] == MonthNames[d.month]
      && |p[1]| >= 2 && p[1][|p[1]| - 1] == ',' && NumberOf(p[1][..|p[1]| - 1]) == Finite(d.day)
      && NumberOf(p[2]) == Finite(d.year)
      && Split(p[3], ':') == [IntToString(Hour12(d.hours)), [DigitChar(d.minutes / 10), DigitChar(d.minutes % 10)]]
      && NumberOf(IntToString(Hour12(d.hours))) == Finite(Hour12(d.hours))
      && p[4] == Meridiem(d.hours)
  {
    var words := DateWords(d);
    assert AbsoluteDate(d) == Join(words, ' ');
    DateWordsHaveNoSpace(d);
    SplitJoin(words, ' ');
    var day := IntToString(d.day);
    assert words[1][..|day|] == day;
    NumberOfIntToString(d.day);
    NumberOfIntToString(d.year);
    NumberOfIntToString(Hour12(d.hours));
    ClockReadsBack(d);
  }

  /** "N unit ago", with the unit in the plural unless N is 1. */
  function Ago(n: int, unit: string): (r: string)
    ensures |r| > 4 && r[|r| - 4..] == " ago"
  {
    IntToString(n) + " " + unit + (if n == 1 then "" else "s") + " ago"
  }

  /** A rendered integer holds neither a space nor any other punctuation
      but a leading minus. */
  lemma RenderedIntHas(i: int, c: char)
    requires c != '-' && !IsDigit(c)
    ensures c !in IntToString(i)
  {
  }

  /** Read word by word, a relative date gives back its count, the unit
      (in the plural unless the count is 1) and "ago". */
  lemma AgoReadsBack(n: int, unit: string)
    requires ' ' !in unit
    ensures var p := Split(Ago(n, unit), ' ');
      && |p| == 3 && NumberOf(p[0]) == Finite(n) && p[2] == "ago"
      && (n == 1 ==> p[1] == unit) && (n != 1 ==> p[1] == unit + "s")
  {
    var num := IntToString(n);
    var word := unit + (if n == 1 then "" else "s");
    var xs := [num, word, "ago"];
    RenderedIntHas(n, ' ');
    assert Join(xs[1..], ' ') == word + " ago" by {
      assert xs[1..][1..] == ["ago"];
    }
    assert Join(xs, ' ') == Ago(n, unit);
    SplitJoin(xs, ' ');
    NumberOfIntToString(n);
  }

  predicate SameDay(a: DateTime, b: DateTime) {
    a.year == b.year && a.month == b.month && a.day == b.day
  }

  predicate SameHour(a: DateTime, b: DateTime) {
    SameDay(a, b) && a.hours == b.hours
  }

  predicate SameMinute(a: DateTime, b: DateTime) {
    SameHour(a, b) && a.minutes == b.minutes
  }

  /** formatDate, with the current time passed in: "now" within the same
      minute, minutes ago within the same hour, hours ago within the same day,
      and the absolute form otherwise. */
  function FormatDate(date: DateTime, now: DateTime): (r: string)
    requires WellFormed(date)
    ensures r == "now" <==> SameMinute(date, now)
    ensures SameHour(date, now) && !SameMinute(date, now) ==> r == Ago(now.minutes - date.minutes, "minute")
    ensures SameDay(date, now) && !SameHour(date, now) ==> r == Ago(now.hours - date.hours, "hour")
    ensures !SameDay(date, now) ==> r == AbsoluteDate(date)
  {
    if SameMinute(date, now) then "now"
    else if SameHour(date, now) then Ago(now.minutes - date.minutes, "minute")
    else if SameDay(date, now) then Ago(now.hours - date.hours, "hour")
    else AbsoluteDate(date)
  }
}
