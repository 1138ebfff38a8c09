/**
 * Date identifiers of the dashboard: days are "YYYY-MM-DD" and months
 * "YYYY-MM". A selected identifier is split into numbers with `substring`
 * and `parseInt`, and the fetch code encodes those numbers back into an
 * identifier with `toString`, `padStart(2, "0")` and "-" separators. The
 * list of pickable days holds every day of every selected month.
 */
module Dates {
  import opened Wrappers
  import opened JsText

  /** The numbers the hourly update reads from one selected day. */
  datatype DayParts = DayParts(year: JsNumber, month: JsNumber, day: JsNumber)

  /** The numbers the monthly update reads from one selected month. */
  datatype MonthParts = MonthParts(year: JsNumber, month: JsNumber)

  /** Characters 0-3, 5-6 and 8-9 of a selected day, each read by `parseInt`. */
  function ParseDay(selectedDate: string): DayParts
  {
    DayParts(ParseInt(Substring(selectedDate, 0, 4)),
             ParseInt(Substring(selectedDate, 5, 7)),
             ParseInt(Substring(selectedDate, 8, 10)))
  }

  /** Characters 0-3 and 5-6 of a selected month, each read by `parseInt`. */
  function ParseMonth(selectedMonth: string): MonthParts
  {
    MonthParts(ParseInt(Substring(selectedMonth, 0, 4)),
               ParseInt(Substring(selectedMonth, 5, 7)))
  }

  /** `x.toString().padStart(2, "0")`. */
  function TwoDigits(x: JsNumber): string
  {
    PadStart(NumberToString(x), 2)
  }

  /** The day identifier the hourly fetch builds from its three numbers. */
  function EncodeDay(p: DayParts): string
  {
    Join([NumberToString(p.year), TwoDigits(p.month), TwoDigits(p.day)], "-")
  }

  /** The month identifier the monthly fetch builds from its two numbers. */
  function EncodeMonth(p: MonthParts): string
  {
    NumberToString(p.year) + "-" + TwoDigits(p.month)
  }

  /** A "YYYY-MM-DD" identifier whose year has no leading zero. */
  predicate IsDayIdentifier(s: string)
  {
    |s| == 10 && AllDigits(s[0..4]) && s[0] != '0' && s[4] == '-'
    && AllDigits(s[5..7]) && s[7] == '-' && AllDigits(s[8..10])
  }

  /** A "YYYY-MM" identifier whose year has no leading zero. */
  predicate IsMonthIdentifier(s: string)
  {
    |s| == 7 && AllDigits(s[0..4]) && s[0] != '0' && s[4] == '-' && AllDigits(s[5..7])
  }

  // ----- the Gregorian calendar (replaces moment's daysInMonth) -----

  predicate IsLeapYear(year: int)
  {
    year % 4 == 0 && (year % 100 != 0 || year % 400 == 0)
  }

  function DaysInMonth(year: int, month: int): (n: nat)
    requires 1 <= month <= 12
    ensures 28 <= n <= 31
  {
    if month == 2 then (if IsLeapYear(year) then 29 else 28)
    else if month == 4 || month == 6 || month == 9 || month == 11 then 30
    else 31
  }

  /**
   * `moment(yearMonth, "YYYY-MM").daysInMonth()` for a "YYYY-MM" identifier
   * with a month 01 to 12; for anything else the moment is invalid, its
   * day count is NaN and building the day list throws.
   */
  function MonthLength(yearMonth: string): Option<nat>
  {
    if |yearMonth| == 7 && AllDigits(yearMonth[0..4]) && yearMonth[4] == '-' && AllDigits(yearMonth[5..7])
       && 1 <= ValueIn(yearMonth[5..7], 10) <= 12
    then Some(DaysInMonth(ValueIn(yearMonth[0..4], 10), ValueIn(yearMonth[5..7], 10)))
    else None
  }

  /** The days of one month, as the day picker lists them. */
  function DaysOf(yearMonth: string, n: nat): seq<string>
  {
    seq(n, day requires 0 <= day < n => yearMonth + "-" + TwoDigits(Num(day + 1)))
  }

  /** The days of every selected month, month by month; None when one of them throws. */
  function MonthDays(selectedMonths: seq<string>): (r: Option<seq<string>>)
    ensures r.Some? <==> forall i :: 0 <= i < |selectedMonths| ==> MonthLength(selectedMonths[i]).Some?
  {
    if selectedMonths == [] then Some([])
    else
      match MonthLength(selectedMonths[0])
      case None => None
      case Some(n) =>
        match MonthDays(selectedMonths[1..])
        case None => None
        case Some(rest) => Some(DaysOf(selectedMonths[0], n) + rest)
  }

  /** The day picker's options: "-", the default days, then every day of every selected month. */
  function AvailableDays(defaultDays: seq<string>, selectedMonths: seq<string>): Option<seq<string>>
  {
    match MonthDays(selectedMonths)
    case None => None
    case Some(days) => Some(["-"] + defaultDays + days)
  }

  // ----- the update loops -----

  /** `f` applied to each element, in order. */
  function Each<A, B>(f: A -> B, s: seq<A>): (r: seq<B>)
    ensures |r| == |s|
    ensures forall i :: 0 <= i < |s| ==> r[i] == f(s[i])
  {
    if s == [] then [] else Each(f, s[..|s| - 1]) + [f(s[|s| - 1])]
  }

  /**
   * updateMonthly: for each selected month, in selection order, the year and
   * month it hands to the monthly fetch.
   */
  method UpdateMonthly(selectedMonths: seq<string>) returns (fetches: seq<MonthParts>)
    ensures fetches == Each(ParseMonth, selectedMonths)
  {
    fetches := [];
    for d := 0 to |selectedMonths|
      invariant fetches == Each(ParseMonth, selectedMonths[..d])
    {
      var selectedMonth := selectedMonths[d];
      assert selectedMonths[..d + 1][..d] == selectedMonths[..d];
      fetches := fetches + [ParseMonth(selectedMonth)];
    }
    assert selectedMonths[..|selectedMonths|] == selectedMonths;
  }

  /**
   * updateHourly: for each selected day, in selection order, the year, month
   * and day it hands to the hourly fetch.
   */
  method UpdateHourly(selectedDates: seq<string>) returns (fetches: seq<DayParts>)
    ensures fetches == Each(ParseDay, selectedDates)
  {
    fetches := [];
    for d := 0 to |selectedDates|
      invariant fetches == Each(ParseDay, selectedDates[..d])
    {
      var selectedDate := selectedDates[d];
      assert selectedDates[..d + 1][..d] == selectedDates[..d];
      fetches := fetches + [ParseDay(selectedDate)];
    }
    assert selectedDates[..|selectedDates|] == selectedDates;
  }

  /** Each well-formed selected month is fetched under its own identifier. */
  lemma MonthsFetchedAsSelected(selectedMonths: seq<string>, d: nat)
    requires d < |selectedMonths| && IsMonthIdentifier(selectedMonths[d])
    ensures EncodeMonth(Each(ParseMonth, selectedMonths)[d]) == selectedMonths[d]
  {
    MonthRoundTrip(selectedMonths[d]);
  }

  /** Each well-formed selected day is fetched under its own identifier. */
  lemma DaysFetchedAsSelected(selectedDates: seq<string>, d: nat)
    requires d < |selectedDates| && IsDayIdentifier(selectedDates[d])
    ensures EncodeDay(Each(ParseDay, selectedDates)[d]) == selectedDates[d]
  {
    DayRoundTrip(selectedDates[d]);
  }

  /** The "-" entry of the day picker reads as three NaNs and names the shard "NaN-NaN-NaN". */
  lemma PlaceholderDay()
    ensures ParseDay("-") == DayParts(NaN, NaN, NaN)
    ensures EncodeDay(ParseDay("-")) == "NaN-NaN-NaN"
  {
    PlaceholderFields("-");
    NaNDay(DayParts(NaN, NaN, NaN));
  }

  lemma NaNDay(p: DayParts)
    requires p == DayParts(NaN, NaN, NaN)
    ensures EncodeDay(p) == "NaN-NaN-NaN"
  {
    assert NumberToString(NaN) == "NaN";
    assert TwoDigits(NaN) == "NaN";
    JoinThree("NaN", "NaN", "NaN");
  }

  /** A one-character entry leaves the month and day fields empty. */
  lemma PlaceholderFields(s: string)
    requires s == "-"
    ensures ParseDay(s) == DayParts(NaN, NaN, NaN)
  {
    assert Substring(s, 0, 4) == s;
    assert Substring(s, 5, 7) == [] && Substring(s, 8, 10) == [];
    ParseIntOfMinus();
    ParseIntOfEmpty();
  }

  // ----- lemmas: encoding and decoding -----

  lemma {:induction false} JoinThree(a: string, b: string, c: string)
    ensures Join([a, b, c], "-") == a + "-" + b + "-" + c
  {
    assert [a, b, c][1..] == [b, c];
    assert [b, c][1..] == [c];
    assert Join([c], "-") == c;
    assert Join([b, c], "-") == b + "-" + c;
  }

  /** Padding a one-character string to two puts a single "0" in front. */
  lemma {:induction false} PadOne(s: string)
    requires |s| == 1
    ensures PadStart(s, 2) == "0" + s
  {
    var r := PadStart(s, 2);
    assert r[1..] == s;
    assert r == [r[0]] + r[1..];
  }

  /** Two digits survive `parseInt` followed by `padStart(2, "0")`. */
  lemma {:induction false} TwoDigitsRoundTrip(t: string)
    requires |t| == 2 && AllDigits(t)
    ensures TwoDigits(ParseInt(t)) == t
  {
    ParseIntOfDigits(t);
    TwoDigitsOfValue(t);
  }

  lemma {:induction false} TwoDigitsOfValue(t: string)
    requires |t| == 2 && IsDigit(t[0]) && IsDigit(t[1])
    ensures ValueIn(t, 10) <= 99
    ensures TwoDigits(Num(ValueIn(t, 10))) == t
  {
    ValueOfTwo(t);
    TwoDigitsOfPair(CharValue(t[0]), CharValue(t[1]));
    DigitRoundTrip(t[0]);
    DigitRoundTrip(t[1]);
    TwoChars(t);
  }

  /** A four-digit year with no leading zero survives `parseInt` and `toString`. */
  lemma {:induction false} YearRoundTrip(t: string)
    requires |t| == 4 && AllDigits(t) && t[0] != '0'
    ensures NumberToString(ParseInt(t)) == t
  {
    ParseIntOfDigits(t);
    DigitsOfValue(t);
  }

  lemma {:induction false} SplitDay(s: string)
    requires |s| == 10 && s[4] == '-' && s[7] == '-'
    ensures s == s[0..4] + "-" + s[5..7] + "-" + s[8..10]
  {
  }

  lemma {:induction false} SplitMonth(s: string)
    requires |s| == 7 && s[4] == '-'
    ensures s == s[0..4] + "-" + s[5..7]
  {
  }

  lemma {:induction false} DayFields(s: string)
    requires IsDayIdentifier(s)
    ensures ParseDay(s) == DayParts(ParseInt(s[0..4]), ParseInt(s[5..7]), ParseInt(s[8..10]))
    ensures NumberToString(ParseInt(s[0..4])) == s[0..4]
    ensures TwoDigits(ParseInt(s[5..7])) == s[5..7] && TwoDigits(ParseInt(s[8..10])) == s[8..10]
  {
    assert Substring(s, 0, 4) == s[0..4] && Substring(s, 5, 7) == s[5..7] && Substring(s, 8, 10) == s[8..10];
    YearRoundTrip(s[0..4]);
    TwoDigitsRoundTrip(s[5..7]);
    TwoDigitsRoundTrip(s[8..10]);
  }

  lemma {:induction false} MonthFields(s: string)
    requires IsMonthIdentifier(s)
    ensures ParseMonth(s) == MonthParts(ParseInt(s[0..4]), ParseInt(s[5..7]))
    ensures NumberToString(ParseInt(s[0..4])) == s[0..4] && TwoDigits(ParseInt(s[5..7])) == s[5..7]
  {
    assert Substring(s, 0, 4) == s[0..4] && Substring(s, 5, 7) == s[5..7];
    YearRoundTrip(s[0..4]);
    TwoDigitsRoundTrip(s[5..7]);
  }

  /** Encoding the numbers read from a "YYYY-MM-DD" identifier gives the identifier back. */
  lemma {:induction false} DayRoundTrip(s: string)
    requires IsDayIdentifier(s)
    ensures EncodeDay(ParseDay(s)) == s
  {
    DayFields(s);
    JoinThree(s[0..4], s[5..7], s[8..10]);
    SplitDay(s);
  }

  /** Encoding the numbers read from a "YYYY-MM" identifier gives the identifier back. */
  lemma {:induction false} MonthRoundTrip(s: string)
    requires IsMonthIdentifier(s)
    ensures EncodeMonth(ParseMonth(s)) == s
  {
    MonthFields(s);
    SplitMonth(s);
  }

  lemma {:induction false} FourDigitYear(y: int)
    requires 1000 <= y <= 9999
    ensures |Digits(y)| == 4 && Digits(y)[0] != '0'
  {
    assert Digits(y) == Digits(y / 10) + [DigitChar(y % 10)];
    assert Digits(y / 10) == Digits(y / 10 / 10) + [DigitChar(y / 10 % 10)];
    assert Digits(y / 10 / 10) == Digits(y / 10 / 10 / 10) + [DigitChar(y / 10 / 10 % 10)];
    assert Digits(y / 10 / 10 / 10) == [DigitChar(y / 10 / 10 / 10)];
  }

  /** `padStart(2, "0")` of a number below 100 is its tens digit then its units digit. */
  lemma {:induction false} TwoDigitsForm(v: int)
    requires 0 <= v <= 99
    ensures TwoDigits(Num(v)) == [DigitChar(v / 10), DigitChar(v % 10)]
  {
    if v < 10 {
      PadOne(Digits(v));
    } else {
      assert Digits(v) == Digits(v / 10) + [DigitChar(v % 10)];
    }
  }

  /** The two digits of `10 * d0 + d1`. */
  lemma TwoDigitsOfPair(d0: nat, d1: nat)
    requires d0 < 10 && d1 < 10
    ensures TwoDigits(Num(10 * d0 + d1)) == [DigitChar(d0), DigitChar(d1)]
  {
    TensAndUnits(d0, d1);
    TwoDigitsForm(10 * d0 + d1);
  }

  lemma TensAndUnits(d0: nat, d1: nat)
    requires d0 < 10 && d1 < 10
    ensures (10 * d0 + d1) / 10 == d0 && (10 * d0 + d1) % 10 == d1
  {
  }

  lemma {:induction false} TwoDigitsValue(v: int)
    requires 0 <= v <= 99
    ensures |TwoDigits(Num(v))| == 2 && AllDigits(TwoDigits(Num(v)))
    ensures ValueIn(TwoDigits(Num(v)), 10) == v
  {
    TwoDigitsForm(v);
    var t := TwoDigits(Num(v));
    assert t[..1] == [DigitChar(v / 10)];
    assert ValueIn(t[..1], 10) == v / 10;
  }

  lemma {:induction false} AssembleDay(ys: string, ms: string, ds: string)
    requires |ys| == 4 && AllDigits(ys) && ys[0] != '0'
    requires |ms| == 2 && AllDigits(ms) && |ds| == 2 && AllDigits(ds)
    ensures IsDayIdentifier(ys + "-" + ms + "-" + ds)
    ensures (ys + "-" + ms + "-" + ds)[0..4] == ys
    ensures (ys + "-" + ms + "-" + ds)[5..7] == ms && (ys + "-" + ms + "-" + ds)[8..10] == ds
  {
    var s := ys + "-" + ms + "-" + ds;
    assert s[0..4] == ys && s[5..7] == ms && s[8..10] == ds;
  }

  lemma {:induction false} AssembleMonth(ys: string, ms: string)
    requires |ys| == 4 && AllDigits(ys) && ys[0] != '0' && |ms| == 2 && AllDigits(ms)
    ensures IsMonthIdentifier(ys + "-" + ms)
    ensures (ys + "-" + ms)[0..4] == ys && (ys + "-" + ms)[5..7] == ms
  {
    var s := ys + "-" + ms;
    assert s[0..4] == ys && s[5..7] == ms;
  }

  /** Reading back an encoded day gives the numbers it was built from. */
  lemma {:induction false} DayPartsRoundTrip(y: int, m: int, d: int)
    requires 1000 <= y <= 9999 && 0 <= m <= 99 && 0 <= d <= 99
    ensures IsDayIdentifier(EncodeDay(DayParts(Num(y), Num(m), Num(d))))
    ensures ParseDay(EncodeDay(DayParts(Num(y), Num(m), Num(d)))) == DayParts(Num(y), Num(m), Num(d))
  {
    var ys, ms, ds := Digits(y), TwoDigits(Num(m)), TwoDigits(Num(d));
    FourDigitYear(y);
    TwoDigitsValue(m);
    TwoDigitsValue(d);
    JoinThree(ys, ms, ds);
    AssembleDay(ys, ms, ds);
    DayFields(ys + "-" + ms + "-" + ds);
    ParseIntOfDigits(ys);
    ParseIntOfDigits(ms);
    ParseIntOfDigits(ds);
  }

  /** Reading back an encoded month gives the numbers it was built from. */
  lemma {:induction false} MonthPartsRoundTrip(y: int, m: int)
    requires 1000 <= y <= 9999 && 0 <= m <= 99
    ensures IsMonthIdentifier(EncodeMonth(MonthParts(Num(y), Num(m))))
    ensures ParseMonth(EncodeMonth(MonthParts(Num(y), Num(m)))) == MonthParts(Num(y), Num(m))
  {
    var ys, ms := Digits(y), TwoDigits(Num(m));
    FourDigitYear(y);
    TwoDigitsValue(m);
    AssembleMonth(ys, ms);
    MonthFields(ys + "-" + ms);
    ParseIntOfDigits(ys);
    ParseIntOfDigits(ms);
  }

  // ----- lemmas: the calendar and the day list -----

  /** The twelve months add up to 365 days, 366 in a leap year. */
  lemma {:induction false} YearLength(year: int)
    ensures DaysInMonth(year, 1) + DaysInMonth(year, 2) + DaysInMonth(year, 3) + DaysInMonth(year, 4)
          + DaysInMonth(year, 5) + DaysInMonth(year, 6) + DaysInMonth(year, 7) + DaysInMonth(year, 8)
          + DaysInMonth(year, 9) + DaysInMonth(year, 10) + DaysInMonth(year, 11) + DaysInMonth(year, 12)
          == if IsLeapYear(year) then 366 else 365
  {
  }

  lemma {:induction false} StringLessCommonPrefix(p: string, x: string, y: string)
    ensures StringLess(p + x, p + y) <==> StringLess(x, y)
  {
    if p != [] {
      assert (p + x)[1..] == p[1..] + x && (p + y)[1..] == p[1..] + y;
      StringLessCommonPrefix(p[1..], x, y);
    } else {
      assert p + x == x && p + y == y;
    }
  }

  /** Zero-padded two-digit numbers compare as strings the way they compare as numbers. */
  lemma {:induction false} TwoDigitsOrdered(a: int, b: int)
    requires 0 <= a < b <= 99
    ensures StringLess(TwoDigits(Num(a)), TwoDigits(Num(b)))
  {
    var a0, a1 := TwoDigitsSplit(a);
    var b0, b1 := TwoDigitsSplit(b);
    DigitPairsOrdered(a0, a1, b0, b1);
  }

  /** The tens and units digits that `padStart(2, "0")` shows for a number below 100. */
  lemma TwoDigitsSplit(v: int) returns (d0: nat, d1: nat)
    requires 0 <= v <= 99
    ensures d0 < 10 && d1 < 10 && v == 10 * d0 + d1
    ensures TwoDigits(Num(v)) == [DigitChar(d0), DigitChar(d1)]
  {
    TwoDigitsForm(v);
    d0, d1 := v / 10, v % 10;
  }

  lemma DigitPairsOrdered(a0: nat, a1: nat, b0: nat, b1: nat)
    requires a0 < 10 && a1 < 10 && b0 < 10 && b1 < 10
    requires a0 < b0 || (a0 == b0 && a1 < b1)
    ensures StringLess([DigitChar(a0), DigitChar(a1)], [DigitChar(b0), DigitChar(b1)])
  {
    if a0 < b0 {
      DigitCharLess(a0, b0);
    } else {
      DigitCharLess(a1, b1);
    }
    StringLessOfTwo([DigitChar(a0), DigitChar(a1)], [DigitChar(b0), DigitChar(b1)]);
  }

  lemma {:induction false} DayEntryOrdered(yearMonth: string, j: nat, k: nat)
    requires j < k <= 99
    ensures StringLess(yearMonth + "-" + TwoDigits(Num(j)), yearMonth + "-" + TwoDigits(Num(k)))
  {
    TwoDigitsOrdered(j, k);
    StringLessCommonPrefix(yearMonth + "-", TwoDigits(Num(j)), TwoDigits(Num(k)));
    assert yearMonth + "-" + TwoDigits(Num(j)) == (yearMonth + "-") + TwoDigits(Num(j));
    assert yearMonth + "-" + TwoDigits(Num(k)) == (yearMonth + "-") + TwoDigits(Num(k));
  }

  lemma {:induction false} DayEntryParses(yearMonth: string, d: nat)
    requires IsMonthIdentifier(yearMonth) && d <= 99
    ensures IsDayIdentifier(yearMonth + "-" + TwoDigits(Num(d)))
    ensures ParseDay(yearMonth + "-" + TwoDigits(Num(d)))
         == DayParts(ParseMonth(yearMonth).year, ParseMonth(yearMonth).month, Num(d))
  {
    var ys, ms, ds := yearMonth[0..4], yearMonth[5..7], TwoDigits(Num(d));
    TwoDigitsValue(d);
    SplitMonth(yearMonth);
    assert yearMonth + "-" + ds == ys + "-" + ms + "-" + ds;
    AssembleDay(ys, ms, ds);
    DayFields(ys + "-" + ms + "-" + ds);
    MonthFields(yearMonth);
    ParseIntOfDigits(ds);
  }

  lemma {:induction false} DayAt(yearMonth: string, n: nat, k: nat)
    requires k < n <= 31
    ensures DaysOf(yearMonth, n)[k] == yearMonth + "-" + [DigitChar((k + 1) / 10), DigitChar((k + 1) % 10)]
  {
    assert DaysOf(yearMonth, n)[k] == yearMonth + "-" + TwoDigits(Num(k + 1));
    TwoDigitsForm(k + 1);
  }

  lemma {:induction false} DaysAtOrdered(yearMonth: string, n: nat, j: nat, k: nat)
    requires j < k < n <= 31
    ensures StringLess(DaysOf(yearMonth, n)[j], DaysOf(yearMonth, n)[k])
  {
    DayEntryOrdered(yearMonth, j + 1, k + 1);
  }

  lemma {:induction false} DayAtReadsBack(yearMonth: string, n: nat, k: nat)
    requires IsMonthIdentifier(yearMonth) && k < n <= 31
    ensures IsDayIdentifier(DaysOf(yearMonth, n)[k])
    ensures ParseDay(DaysOf(yearMonth, n)[k]) == DayParts(ParseMonth(yearMonth).year, ParseMonth(yearMonth).month, Num(k + 1))
  {
    var day := yearMonth + "-" + TwoDigits(Num(k + 1));
    assert DaysOf(yearMonth, n)[k] == day;
    assert IsDayIdentifier(day) && ParseDay(day)
        == DayParts(ParseMonth(yearMonth).year, ParseMonth(yearMonth).month, Num(k + 1)) by {
      DayEntryParses(yearMonth, k + 1);
    }
  }

  /**
   * The day list of a month `YYYY-MM` holds exactly its days 01, 02, ...,
   * as many as the month has, each written with two digits.
   */
  lemma {:induction false} DaysOfMonth(yearMonth: string, n: nat)
    requires MonthLength(yearMonth) == Some(n)
    ensures |DaysOf(yearMonth, n)| == n
    ensures n == DaysInMonth(ValueIn(yearMonth[0..4], 10), ValueIn(yearMonth[5..7], 10))
    ensures forall k :: 0 <= k < n ==>
      DaysOf(yearMonth, n)[k] == yearMonth + "-" + [DigitChar((k + 1) / 10), DigitChar((k + 1) % 10)]
  {
    forall k | 0 <= k < n
      ensures DaysOf(yearMonth, n)[k] == yearMonth + "-" + [DigitChar((k + 1) / 10), DigitChar((k + 1) % 10)]
    {
      DayAt(yearMonth, n, k);
    }
  }

  /** The day list of a month is strictly ascending under string `<`. */
  lemma {:induction false} DaysOfMonthAscending(yearMonth: string, n: nat)
    requires n <= 31
    ensures forall j, k :: 0 <= j < k < n ==> StringLess(DaysOf(yearMonth, n)[j], DaysOf(yearMonth, n)[k])
  {
    forall j: nat, k: nat | j < k < n
      ensures StringLess(DaysOf(yearMonth, n)[j], DaysOf(yearMonth, n)[k])
    {
      DaysAtOrdered(yearMonth, n, j, k);
    }
  }

  /** Each listed day of a well-formed month is a day identifier that reads back as (year, month, day). */
  lemma {:induction false} DaysOfMonthReadBack(yearMonth: string, n: nat)
    requires IsMonthIdentifier(yearMonth) && n <= 31
    ensures forall k :: 0 <= k < n ==>
      IsDayIdentifier(DaysOf(yearMonth, n)[k]) &&
      ParseDay(DaysOf(yearMonth, n)[k]) == DayParts(ParseMonth(yearMonth).year, ParseMonth(yearMonth).month, Num(k + 1))
  {
    forall k | 0 <= k < n
      ensures IsDayIdentifier(DaysOf(yearMonth, n)[k])
      ensures ParseDay(DaysOf(yearMonth, n)[k]) == DayParts(ParseMonth(yearMonth).year, ParseMonth(yearMonth).month, Num(k + 1))
    {
      DayAtReadsBack(yearMonth, n, k);
    }
  }

  /** Every day of every selected month is on the day list, after "-" and the default days. */
  lemma {:induction false} AvailableDaysHoldsMonth(defaultDays: seq<string>, selectedMonths: seq<string>, i: nat, k: nat)
    requires AvailableDays(defaultDays, selectedMonths).Some?
    requires i < |selectedMonths| && MonthLength(selectedMonths[i]).Some?
    requires k < MonthLength(selectedMonths[i]).value
    ensures AvailableDays(defaultDays, selectedMonths).value[..1 + |defaultDays|] == ["-"] + defaultDays
    ensures DaysOf(selectedMonths[i], MonthLength(selectedMonths[i]).value)[k]
            in AvailableDays(defaultDays, selectedMonths).value[1 + |defaultDays|..]
  {
    MonthDaysHoldsMonth(selectedMonths, i, k);
    var days := MonthDays(selectedMonths).value;
    assert AvailableDays(defaultDays, selectedMonths).value == ["-"] + defaultDays + days;
    assert (["-"] + defaultDays + days)[1 + |defaultDays|..] == days;
  }

  lemma {:induction false} MonthDaysHoldsMonth(selectedMonths: seq<string>, i: nat, k: nat)
    requires MonthDays(selectedMonths).Some?
    requires i < |selectedMonths| && MonthLength(selectedMonths[i]).Some?
    requires k < MonthLength(selectedMonths[i]).value
    ensures DaysOf(selectedMonths[i], MonthLength(selectedMonths[i]).value)[k] in MonthDays(selectedMonths).value
  {
    var tail := selectedMonths[1..];
    MonthDaysUnfold(selectedMonths);
    if i != 0 {
      assert tail[i - 1] == selectedMonths[i];
      MonthDaysHoldsMonth(tail, i - 1, k);
    }
  }

  lemma {:induction false} MonthDaysUnfold(selectedMonths: seq<string>)
    requires selectedMonths != [] && MonthDays(selectedMonths).Some?
    ensures MonthLength(selectedMonths[0]).Some? && MonthDays(selectedMonths[1..]).Some?
    ensures MonthDays(selectedMonths).value
         == DaysOf(selectedMonths[0], MonthLength(selectedMonths[0]).value) + MonthDays(selectedMonths[1..]).value
  {
  }

  /** The day list has one entry per day of the selected months beyond "-" and the defaults. */
  function TotalDays(selectedMonths: seq<string>): nat
    requires forall i :: 0 <= i < |selectedMonths| ==> MonthLength(selectedMonths[i]).Some?
  {
    if selectedMonths == [] then 0
    else MonthLength(selectedMonths[0]).value + TotalDays(selectedMonths[1..])
  }

  lemma {:induction false} AvailableDaysLength(defaultDays: seq<string>, selectedMonths: seq<string>)
    requires AvailableDays(defaultDays, selectedMonths).Some?
    ensures |AvailableDays(defaultDays, selectedMonths).value| == 1 + |defaultDays| + TotalDays(selectedMonths)
  {
    MonthDaysLength(selectedMonths);
  }

  lemma {:induction false} MonthDaysLength(selectedMonths: seq<string>)
    requires MonthDays(selectedMonths).Some?
    ensures |MonthDays(selectedMonths).value| == TotalDays(selectedMonths)
  {
    if selectedMonths != [] {
      MonthDaysLength(selectedMonths[1..]);
    }
  }
}
