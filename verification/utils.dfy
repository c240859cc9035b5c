/**
 * The display helpers of the web client: dates as `YYYY-MM-DD` (for years 1000 to 9999
 * the calendar-date form of RFC 3339 `full-date`, section 5.6; the year is not padded)
 * and timestamps as `DD/MM/YYYY HH:MM`,
 * the browser's UTC offset, and the message shown in an alert.
 */
module Utils {
  import opened Values
  import opened Strings

  /**
   * The local-time fields a JavaScript `Date` reports: `getFullYear()`,
   * `getMonth()` (0-based), `getDate()`, `getHours()` and `getMinutes()`.
   */
  datatype LocalTime = LocalTime(year: int, month0: nat, day: nat, hours: nat, minutes: nat)

  /** The ranges a valid `Date` keeps its local fields in. */
  predicate InRange(t: LocalTime)
  {
    t.month0 < 12 && 1 <= t.day <= 31 && t.hours < 24 && t.minutes < 60
  }

  /** A calendar day as read back from a `YYYY-MM-DD` string; the month is 1-based. */
  datatype CalendarDay = CalendarDay(year: int, month: nat, day: nat)

  /** `n.toString().padStart(2, '0')`. */
  function Pad2(n: nat): (s: string)
    ensures AllDigits(s)
  {
    PadStart(Digits(n), 2, '0')
  }

  /**
   * Padding leaves a numeral of two or more digits unchanged and puts a single '0'
   * before a one-digit numeral, so every value up to 99 becomes exactly two digits.
   */
  lemma Pad2Digits(n: nat)
    ensures n < 10 ==> Pad2(n) == ['0', DigitChar(n)]
    ensures 10 <= n ==> Pad2(n) == Digits(n)
    ensures n <= 99 <==> |Pad2(n)| == 2
  {
    DigitsLength(n);
  }

  lemma Pad2Length(n: nat)
    requires n <= 99
    ensures |Pad2(n)| == 2
  {
    Pad2Digits(n);
  }

  /** A padded value up to 99 reads back as the value. */
  lemma Pad2RoundTrip(n: nat)
    requires n <= 99
    ensures ParseDecimal(Pad2(n)) == Some(n)
  {
    Pad2Digits(n);
    DigitsRoundTrip(n);
    var r := Pad2(n);
    if n < 10 {
      assert r[..1] == ['0'];
      assert DecimalValue(r) == DecimalValue(r[..1]) * 10 + n;
    }
  }

  /** The alert text for a caught error: `err.message || 'An error occurred'`. */
  function AlertMessage(message: Option<string>): (text: string)
    ensures Truthy(message) ==> text == message.value
    ensures !Truthy(message) ==> text == "An error occurred"
    ensures text != ""
  {
    Or(message, "An error occurred")
  }

  /** `formatDay`: `${year}-${month}-${day}` with a 1-based month and two-digit month and day. */
  function FormatDay(t: LocalTime): (s: string)
    ensures StartsWith(s, IntString(t.year) + "-")
  {
    IntString(t.year) + "-" + Pad2(t.month0 + 1) + "-" + Pad2(t.day)
  }

  /** `formatTimestamp`: `${day}/${month}/${year} ${hours}:${minutes}`, all but the year two digits. */
  function FormatTimestamp(t: LocalTime): (s: string)
    ensures StartsWith(s, Pad2(t.day) + "/")
  {
    var s := Pad2(t.day) + "/" + Pad2(t.month0 + 1) + "/" + IntString(t.year) + " " + Pad2(t.hours) + ":" + Pad2(t.minutes);
    TimestampStarts(s, Pad2(t.day), Pad2(t.month0 + 1), IntString(t.year), Pad2(t.hours), Pad2(t.minutes));
    s
  }

  /** A timestamp's text opens with its day field and '/'. */
  lemma TimestampStarts(s: string, d: string, m: string, y: string, hh: string, mm: string)
    requires s == d + "/" + m + "/" + y + " " + hh + ":" + mm
    ensures StartsWith(s, d + "/")
  {
    assert s == (d + "/") + (m + "/" + y + " " + hh + ":" + mm);
  }

  /** `getTimezone`: the negated `getTimezoneOffset()`, so that zones east of UTC are positive. */
  function GetTimezone(timezoneOffset: int): (r: int)
    ensures r > 0 <==> timezoneOffset < 0
    ensures r < 0 <==> timezoneOffset > 0
  {
    -timezoneOffset
  }

  /**
   * Reads a `YYYY-MM-DD` string back into its fields: three numerals separated by '-',
   * or, for a year before year 0, an empty piece, then the year's digits, month and day.
   */
  function ParseDay(s: string): (r: Option<CalendarDay>)
    ensures r.Some? ==> var parts := Split(s, "-");
      (|parts| == 3 || |parts| == 4) &&
      ParseDecimal(parts[|parts| - 2]) == Some(r.value.month) &&
      ParseDecimal(parts[|parts| - 1]) == Some(r.value.day) &&
      (|parts| == 3 ==> 0 <= r.value.year)
  {
    var parts := Split(s, "-");
    var n := |parts|;
    if n != 3 && !(n == 4 && parts[0] == "") then None
    else
      var yearText := if n == 4 then "-" + parts[1] else parts[0];
      match (ParseInt(yearText), ParseDecimal(parts[n - 2]), ParseDecimal(parts[n - 1]))
      case (Some(y), Some(m), Some(d)) => Some(CalendarDay(y, m, d))
      case _ => None
  }

  /** Reads a `DD/MM/YYYY HH:MM` string back into the local-time fields it shows. */
  function ParseTimestamp(s: string): (r: Option<LocalTime>)
    ensures r.Some? ==> var halves := Split(s, " ");
      |halves| == 2 && |Split(halves[0], "/")| == 3 && |Split(halves[1], ":")| == 2 &&
      ParseInt(Split(halves[0], "/")[2]) == Some(r.value.year) &&
      ParseDecimal(Split(halves[0], "/")[1]) == Some(r.value.month0 + 1)
  {
    var halves := Split(s, " ");
    if |halves| != 2 then None
    else
      var date, time := Split(halves[0], "/"), Split(halves[1], ":");
      if |date| != 3 || |time| != 2 then None
      else match (ParseDecimal(date[0]), ParseDecimal(date[1]), ParseInt(date[2]),
                  ParseDecimal(time[0]), ParseDecimal(time[1]))
        case (Some(d), Some(m), Some(y), Some(h), Some(mi)) =>
          if m == 0 then None else Some(LocalTime(y, m - 1, d, h, mi))
        case _ => None
  }

  /** Besides its digits, the text of an integer holds at most a leading '-'. */
  lemma IntStringAvoids(i: int, c: char)
    requires c != '-' && !IsDigit(c)
    ensures c !in IntString(i)
  {
    if i < 0 {
      assert IntString(i) == "-" + Digits(-i);
    }
  }

  /**
   * The pieces of a formatted day, in order: year, month, day. A year before year 0
   * prints with a leading '-', which opens an empty first piece before its digits.
   */
  lemma FormatDayPieces(t: LocalTime)
    ensures 0 <= t.year ==>
      Split(FormatDay(t), "-") == [IntString(t.year), Pad2(t.month0 + 1), Pad2(t.day)]
    ensures t.year < 0 ==>
      Split(FormatDay(t), "-") == ["", Digits(-t.year), Pad2(t.month0 + 1), Pad2(t.day)]
  {
    var s, m, d := FormatDay(t), Pad2(t.month0 + 1), Pad2(t.day);
    if 0 <= t.year {
      DayPieces(s, IntString(t.year), m, d);
    } else {
      var y := Digits(-t.year);
      assert IntString(t.year) == "-" + y;
      NegativeDayPieces(s, y, m, d);
    }
  }

  lemma DayPieces(s: string, y: string, m: string, d: string)
    requires s == y + "-" + m + "-" + d
    requires AllDigits(y) && AllDigits(m) && AllDigits(d)
    ensures Split(s, "-") == [y, m, d]
  {
    SplitThree(y, m, d, '-');
  }

  lemma NegativeDayPieces(s: string, y: string, m: string, d: string)
    requires s == "-" + y + "-" + m + "-" + d
    requires AllDigits(y) && AllDigits(m) && AllDigits(d)
    ensures Split(s, "-") == ["", y, m, d]
  {
    var rest := y + "-" + m + "-" + d;
    SplitThree(y, m, d, '-');
    SplitLeadingChar('-', rest);
    LeadingDash(y, m, d);
  }

  lemma LeadingDash(y: string, m: string, d: string)
    ensures "-" + y + "-" + m + "-" + d == ['-'] + (y + "-" + m + "-" + d)
  {
  }

  lemma DayShapeOf(s: string, y: string, m: string, d: string)
    requires s == y + "-" + m + "-" + d
    requires |m| == 2 && |d| == 2 && AllDigits(m) && AllDigits(d)
    ensures var k := |y|;
      |s| == k + 6 && s[..k] == y && s[k] == '-' && s[k + 3] == '-' &&
      AllDigits(s[k + 1..k + 3]) && AllDigits(s[k + 4..])
  {
    var k := |y|;
    assert s[..k] == y && s[k + 1..k + 3] == m && s[k + 4..] == d;
  }

  lemma YearLength(year: int)
    requires 0 <= year
    ensures 1000 <= year <= 9999 <==> |IntString(year)| == 4
    ensures year < 1000 ==> |IntString(year)| < 4
  {
    DigitsLength(year);
  }

  /**
   * A day string is the year's text, '-', two month digits, '-', two day digits; so it
   * is six characters longer than the year's text.
   */
  lemma FormatDayShape(t: LocalTime)
    requires InRange(t)
    ensures var s := FormatDay(t); var k := |IntString(t.year)|;
      |s| == k + 6 && s[..k] == IntString(t.year) && s[k] == '-' && s[k + 3] == '-' &&
      AllDigits(s[k + 1..k + 3]) && AllDigits(s[k + 4..])
  {
    Pad2Length(t.month0 + 1);
    Pad2Length(t.day);
    DayShapeOf(FormatDay(t), IntString(t.year), Pad2(t.month0 + 1), Pad2(t.day));
  }

  /**
   * Among years from 0 on, a day string has the ten characters of `YYYY-MM-DD` exactly
   * for four-digit years, since the year is not padded; a year from -999 to -100 also
   * prints as ten characters, with its sign.
   */
  lemma FormatDayLength(t: LocalTime)
    requires InRange(t)
    ensures 0 <= t.year ==> (1000 <= t.year <= 9999 <==> |FormatDay(t)| == 10)
    ensures 0 <= t.year < 1000 ==> |FormatDay(t)| < 10
    ensures 1000 <= t.year <= 9999 ==> AllDigits(FormatDay(t)[..4])
    ensures -999 <= t.year <= -100 ==> |FormatDay(t)| == 10
  {
    FormatDayShape(t);
    if 0 <= t.year {
      YearLength(t.year);
    } else {
      DigitsLength(-t.year);
    }
  }

  /** Reading back a formatted day gives its year, its 1-based month and its day. */
  lemma FormatDayRoundTrip(t: LocalTime)
    requires InRange(t)
    ensures ParseDay(FormatDay(t)) == Some(CalendarDay(t.year, t.month0 + 1, t.day))
  {
    FormatDayPieces(t);
    IntStringRoundTrip(t.year);
    Pad2RoundTrip(t.month0 + 1);
    Pad2RoundTrip(t.day);
    ParseDayOf(FormatDay(t), IntString(t.year), Pad2(t.month0 + 1), Pad2(t.day),
      CalendarDay(t.year, t.month0 + 1, t.day));
  }

  lemma ParseDayOf(s: string, yearText: string, m: string, d: string, c: CalendarDay)
    requires ParseInt(yearText) == Some(c.year)
    requires ParseDecimal(m) == Some(c.month) && ParseDecimal(d) == Some(c.day)
    requires Split(s, "-") == [yearText, m, d] ||
      (0 < |yearText| && yearText[0] == '-' && Split(s, "-") == ["", yearText[1..], m, d])
    ensures ParseDay(s) == Some(c)
  {
    if Split(s, "-") != [yearText, m, d] {
      assert "-" + yearText[1..] == yearText;
    }
  }

  lemma NoSeparatorIn(d: string, m: string, y: string, c: char, sep: char)
    requires c !in d && c !in m && c !in y && c != sep
    ensures c !in d + [sep] + m + [sep] + y
  {
  }

  lemma SplitAtSpace(date: string, time: string)
    requires ' ' !in date && ' ' !in time
    ensures Split(date + " " + time, " ") == [date, time]
  {
    SplitTwo(date, time, ' ');
  }

  lemma SplitTimestampAtSpace(d: string, m: string, y: string, hh: string, mm: string)
    requires ' ' !in d + "/" + m + "/" + y && ' ' !in hh + ":" + mm
    ensures Split(d + "/" + m + "/" + y + " " + hh + ":" + mm, " ") == [d + "/" + m + "/" + y, hh + ":" + mm]
  {
    assert d + "/" + m + "/" + y + " " + hh + ":" + mm == (d + "/" + m + "/" + y) + " " + (hh + ":" + mm);
    SplitAtSpace(d + "/" + m + "/" + y, hh + ":" + mm);
  }

  lemma TimestampPiecesOf(d: string, m: string, y: string, hh: string, mm: string)
    requires AllDigits(d) && AllDigits(m) && AllDigits(hh) && AllDigits(mm)
    requires ' ' !in y && '/' !in y
    ensures var halves := Split(d + "/" + m + "/" + y + " " + hh + ":" + mm, " ");
      halves == [d + "/" + m + "/" + y, hh + ":" + mm] &&
      Split(halves[0], "/") == [d, m, y] &&
      Split(halves[1], ":") == [hh, mm]
  {
    assert ' ' !in d && ' ' !in m && '/' !in d && '/' !in m;
    NoSeparatorIn(d, m, y, ' ', '/');
    assert ' ' !in hh + ":" + mm;
    SplitTimestampAtSpace(d, m, y, hh, mm);
    SplitThree(d, m, y, '/');
    SplitTwo(hh, mm, ':');
  }

  /** The pieces of a formatted timestamp: the date part, then the time part. */
  lemma FormatTimestampPieces(t: LocalTime)
    ensures var halves := Split(FormatTimestamp(t), " ");
      |halves| == 2 &&
      Split(halves[0], "/") == [Pad2(t.day), Pad2(t.month0 + 1), IntString(t.year)] &&
      Split(halves[1], ":") == [Pad2(t.hours), Pad2(t.minutes)]
  {
    IntStringAvoids(t.year, ' ');
    IntStringAvoids(t.year, '/');
    TimestampPiecesOf(Pad2(t.day), Pad2(t.month0 + 1), IntString(t.year), Pad2(t.hours), Pad2(t.minutes));
  }

  lemma ParseTimestampOf(s: string, date: seq<string>, time: seq<string>, t: LocalTime)
    requires var halves := Split(s, " ");
      |halves| == 2 && date == Split(halves[0], "/") && time == Split(halves[1], ":")
    requires |date| == 3 && |time| == 2
    requires ParseDecimal(date[0]) == Some(t.day) && ParseDecimal(date[1]) == Some(t.month0 + 1)
    requires ParseInt(date[2]) == Some(t.year)
    requires ParseDecimal(time[0]) == Some(t.hours) && ParseDecimal(time[1]) == Some(t.minutes)
    ensures ParseTimestamp(s) == Some(t)
  {
  }

  /** A formatted timestamp reads back as exactly the local time it was made from. */
  lemma FormatTimestampRoundTrip(t: LocalTime)
    requires InRange(t)
    ensures ParseTimestamp(FormatTimestamp(t)) == Some(t)
  {
    FormatTimestampPieces(t);
    var halves := Split(FormatTimestamp(t), " ");
    var date, time := Split(halves[0], "/"), Split(halves[1], ":");
    IntStringRoundTrip(t.year);
    Pad2RoundTrip(t.day);
    Pad2RoundTrip(t.month0 + 1);
    Pad2RoundTrip(t.hours);
    Pad2RoundTrip(t.minutes);
    ParseTimestampOf(FormatTimestamp(t), date, time, t);
  }

  /**
   * A timestamp's date part carries the same day, month and year fields as the
   * day string of the same time, in the reverse order; a year before year 0 is
   * split by the day string into an empty piece and its digits.
   */
  lemma TimestampReversesDay(t: LocalTime)
    ensures var day := Split(FormatDay(t), "-");
      var date := Split(Split(FormatTimestamp(t), " ")[0], "/");
      (0 <= t.year ==> |day| == 3 && date == [day[2], day[1], day[0]]) &&
      (t.year < 0 ==> |day| == 4 && day[0] == "" && date == [day[3], day[2], "-" + day[1]])
  {
    FormatDayPieces(t);
    FormatTimestampPieces(t);
    ReversedPieces(Split(FormatDay(t), "-"), Split(Split(FormatTimestamp(t), " ")[0], "/"),
      t.year, Pad2(t.month0 + 1), Pad2(t.day));
  }

  lemma ReversedPieces(day: seq<string>, date: seq<string>, year: int, m: string, d: string)
    requires date == [d, m, IntString(year)]
    requires 0 <= year ==> day == [IntString(year), m, d]
    requires year < 0 ==> day == ["", Digits(-year), m, d]
    ensures 0 <= year ==> |day| == 3 && date == [day[2], day[1], day[0]]
    ensures year < 0 ==> |day| == 4 && day[0] == "" && date == [day[3], day[2], "-" + day[1]]
  {
  }

  /**
   * `getTimezoneOffset()` is UTC minus local time, in minutes, so the negation is
   * local time minus UTC: positive east of UTC, negative west of it.
   */
  lemma GetTimezoneIsLocalMinusUtc(utcMinutes: int, localMinutes: int)
    ensures GetTimezone(utcMinutes - localMinutes) == localMinutes - utcMinutes
    ensures GetTimezone(utcMinutes - localMinutes) > 0 <==> localMinutes > utcMinutes
  {
  }
}
