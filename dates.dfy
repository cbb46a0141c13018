/**
  The date handling of the report service: `datetime.strptime` with the formats
  "%d/%m/%Y" (the report's own date) and "%Y-%m-%d" (the statistics range),
  `strftime("%Y-%m-%d")`, and the normalization of a report date with its
  "Unknown Date" fallback (maphost.py, lines 29-35).
*/
module Dates {
  import opened Util
  import opened StringOrder

  /** A calendar day, as a `datetime` at midnight holds it. */
  datatype Date = Date(year: nat, month: nat, day: nat)

  /** The sentinel that stands for a missing or unreadable report date. */
  const UnknownDate: string := "Unknown Date"

  /** Proleptic Gregorian leap years, as `datetime` uses. */
  predicate IsLeapYear(y: nat)
  {
    y % 4 == 0 && (y % 100 != 0 || y % 400 == 0)
  }

  function DaysInMonth(y: nat, m: nat): (n: nat)
    requires 1 <= m <= 12
    ensures 28 <= n <= 31
  {
    if m == 2 then (if IsLeapYear(y) then 29 else 28)
    else if m == 4 || m == 6 || m == 9 || m == 11 then 30
    else 31
  }

  /** The days `datetime` can represent: years 1 (MINYEAR) to 9999 (MAXYEAR), real months and days. */
  predicate Valid(d: Date)
  {
    1 <= d.year <= 9999 && 1 <= d.month <= 12 && 1 <= d.day <= DaysInMonth(d.year, d.month)
  }

  /**
    strptime's `%d`: the whole field must be one of `3[01]`, `[12]\d`, `0[1-9]`,
    `[1-9]` or a space followed by `[1-9]`; `int()` then ignores the space.
  */
  function DayToken(t: string): (r: Option<nat>)
    ensures r.Some? ==> 1 <= r.value <= 31
  {
    if |t| == 1 && '1' <= t[0] <= '9' then Some(DigitValue(t[0]))
    else if |t| == 2 && t[0] == ' ' && '1' <= t[1] <= '9' then Some(DigitValue(t[1]))
    else if |t| == 2 && ((t[0] == '3' && '0' <= t[1] <= '1')
                         || ('1' <= t[0] <= '2' && IsDigit(t[1]))
                         || (t[0] == '0' && '1' <= t[1] <= '9'))
    then Some(DigitValue(t[0]) * 10 + DigitValue(t[1]))
    else None
  }

  /** strptime's `%m`: the whole field must be one of `1[0-2]`, `0[1-9]` or `[1-9]`. */
  function MonthToken(t: string): (r: Option<nat>)
    ensures r.Some? ==> 1 <= r.value <= 12
  {
    if |t| == 1 && '1' <= t[0] <= '9' then Some(DigitValue(t[0]))
    else if |t| == 2 && ((t[0] == '1' && '0' <= t[1] <= '2') || (t[0] == '0' && '1' <= t[1] <= '9'))
    then Some(DigitValue(t[0]) * 10 + DigitValue(t[1]))
    else None
  }

  /** strptime's `%Y`: exactly four decimal digits. */
  function YearToken(t: string): (r: Option<nat>)
    ensures r.Some? ==> r.value <= 9999
  {
    if |t| == 4 && AllDigits(t) then
      ValueBound(t);
      Some(Value(t))
    else None
  }

  /** The `datetime` built from the three fields, or None where `datetime` raises ValueError. */
  function Assemble(year: Option<nat>, month: Option<nat>, day: Option<nat>): (r: Option<Date>)
    ensures r.Some? ==> Valid(r.value)
  {
    if year.Some? && month.Some? && day.Some? && Valid(Date(year.value, month.value, day.value))
    then Some(Date(year.value, month.value, day.value))
    else None
  }

  /**
    `datetime.strptime(s, "%d/%m/%Y")`, None where it raises ValueError. The two
    slashes delimit the fields and no field may hold a slash, so the regular
    expression matches the whole text exactly when the text splits at '/' into
    three valid fields.
  */
  function ParseDayMonthYear(s: string): (r: Option<Date>)
    ensures r.Some? ==> Valid(r.value)
  {
    var parts := Split(s, '/');
    if |parts| != 3 then None
    else Assemble(YearToken(parts[2]), MonthToken(parts[1]), DayToken(parts[0]))
  }

  /** `datetime.strptime(s, "%Y-%m-%d")`, None where it raises ValueError. */
  function ParseIso(s: string): (r: Option<Date>)
    ensures r.Some? ==> Valid(r.value)
  {
    var parts := Split(s, '-');
    if |parts| != 3 then None
    else Assemble(YearToken(parts[0]), MonthToken(parts[1]), DayToken(parts[2]))
  }

  /** `strftime("%Y-%m-%d")`: four-digit year, two-digit month and day, all zero padded. */
  function Format(d: Date): (s: string)
    requires Valid(d)
    ensures |s| == 10 && s != UnknownDate
  {
    Pad(d.year, 4) + "-" + Pad(d.month, 2) + "-" + Pad(d.day, 2)
  }

  /** The date field of a report record: the raw text reformatted, or the sentinel (lines 32-35). */
  function Normalize(raw: string): string
  {
    match ParseDayMonthYear(raw)
    case Some(d) => Format(d)
    case None => UnknownDate
  }

  /** `datetime` comparison `a < b` of two days: by year, then month, then day. */
  predicate Before(a: Date, b: Date)
  {
    a.year < b.year || (a.year == b.year && (a.month < b.month || (a.month == b.month && a.day < b.day)))
  }

  /** `datetime` comparison `a <= b` of two days. */
  predicate NotAfter(a: Date, b: Date)
  {
    a == b || Before(a, b)
  }

  /** The "YYYY-MM-DD" text of a real day: "%Y-%m-%d" reads it, and writing that day back gives the same text. */
  predicate Reformats(s: string)
  {
    ParseIso(s).Some? && s == Format(ParseIso(s).value)
  }

  // The texts each field accepts, written out independently of the token grammar.

  /** Every way `%d` can spell day `n`: "07", and for one-digit days also "7" and " 7". */
  function DaySpellings(n: nat): set<string>
    requires 1 <= n <= 31
  {
    {Pad(n, 2)} + (if n < 10 then {[DigitChar(n)], [' ', DigitChar(n)]} else {})
  }

  /** Every way `%m` can spell month `n`: "03", and for one-digit months also "3". */
  function MonthSpellings(n: nat): set<string>
    requires 1 <= n <= 12
  {
    {Pad(n, 2)} + (if n < 10 then {[DigitChar(n)]} else {})
  }

  /** Every text "%d/%m/%Y" reads as the day `d`. */
  function DayMonthYearSpellings(d: Date): set<string>
    requires Valid(d)
  {
    set td, tm | td in DaySpellings(d.day) && tm in MonthSpellings(d.month)
      :: td + "/" + tm + "/" + Pad(d.year, 4)
  }

  /** Every text "%Y-%m-%d" reads as the day `d`. */
  function IsoSpellings(d: Date): set<string>
    requires Valid(d)
  {
    set tm, td | tm in MonthSpellings(d.month) && td in DaySpellings(d.day)
      :: Pad(d.year, 4) + "-" + tm + "-" + td
  }

  lemma DayTokenSpellings(t: string, n: nat)
    requires 1 <= n <= 31
    ensures DayToken(t) == Some(n) <==> t in DaySpellings(n)
  {
    var p := Pad(n, 2);
    assert p == [DigitChar(n / 10 % 10), DigitChar(n % 10)] by {
      assert Pad(n / 10, 1) == [DigitChar(n / 10 % 10)];
    }
    if |t| == 2 {
      assert t == [t[0], t[1]];
    }
    if |t| == 1 {
      assert t == [t[0]];
    }
  }

  lemma MonthTokenSpellings(t: string, n: nat)
    requires 1 <= n <= 12
    ensures MonthToken(t) == Some(n) <==> t in MonthSpellings(n)
  {
    var p := Pad(n, 2);
    assert p == [DigitChar(n / 10 % 10), DigitChar(n % 10)] by {
      assert Pad(n / 10, 1) == [DigitChar(n / 10 % 10)];
    }
    if |t| == 2 {
      assert t == [t[0], t[1]];
    }
    if |t| == 1 {
      assert t == [t[0]];
    }
  }

  lemma YearTokenPad(t: string, y: nat)
    requires y <= 9999
    ensures YearToken(t) == Some(y) <==> t == Pad(y, 4)
  {
    if t == Pad(y, 4) {
      ValuePad(y, 4);
    }
    if YearToken(t) == Some(y) {
      PadValue(t);
    }
  }

  /** No spelling of a day or month holds a separator. */
  lemma SpellingsHaveNoSeparator(td: string, tm: string, d: Date)
    requires Valid(d) && td in DaySpellings(d.day) && tm in MonthSpellings(d.month)
    ensures '/' !in td && '-' !in td && '/' !in tm && '-' !in tm
    ensures '/' !in Pad(d.year, 4) && '-' !in Pad(d.year, 4)
  {
  }

  /** A text "%d/%m/%Y" reads as a day is a spelling of that day. */
  lemma ParsedDayMonthYearIsSpelling(s: string, d: Date)
    requires ParseDayMonthYear(s) == Some(d)
    ensures Valid(d) && s in DayMonthYearSpellings(d)
  {
    var parts := Split(s, '/');
    SplitThree(s, '/');
    DayTokenSpellings(parts[0], d.day);
    MonthTokenSpellings(parts[1], d.month);
    YearTokenPad(parts[2], d.year);
    assert s == parts[0] + "/" + parts[1] + "/" + Pad(d.year, 4);
  }

  /** Every spelling of a real day reads back as that day under "%d/%m/%Y". */
  lemma SpellingParsesDayMonthYear(s: string, d: Date)
    requires Valid(d) && s in DayMonthYearSpellings(d)
    ensures ParseDayMonthYear(s) == Some(d)
  {
    var td, tm :| td in DaySpellings(d.day) && tm in MonthSpellings(d.month)
                && s == td + "/" + tm + "/" + Pad(d.year, 4);
    SpellingsHaveNoSeparator(td, tm, d);
    SplitOfThree(td, tm, Pad(d.year, 4), '/');
    DayTokenSpellings(td, d.day);
    MonthTokenSpellings(tm, d.month);
    YearTokenPad(Pad(d.year, 4), d.year);
  }

  /** strptime "%d/%m/%Y" reads a text as day `d` exactly when the text is one of the spellings of `d`. */
  lemma ParseDayMonthYearSpellings(s: string, d: Date)
    ensures ParseDayMonthYear(s) == Some(d) <==> Valid(d) && s in DayMonthYearSpellings(d)
  {
    if ParseDayMonthYear(s) == Some(d) {
      ParsedDayMonthYearIsSpelling(s, d);
    }
    if Valid(d) && s in DayMonthYearSpellings(d) {
      SpellingParsesDayMonthYear(s, d);
    }
  }

  /** A text "%Y-%m-%d" reads as a day is a spelling of that day. */
  lemma ParsedIsoIsSpelling(s: string, d: Date)
    requires ParseIso(s) == Some(d)
    ensures Valid(d) && s in IsoSpellings(d)
  {
    var parts := Split(s, '-');
    SplitThree(s, '-');
    DayTokenSpellings(parts[2], d.day);
    MonthTokenSpellings(parts[1], d.month);
    YearTokenPad(parts[0], d.year);
    assert s == Pad(d.year, 4) + "-" + parts[1] + "-" + parts[2];
  }

  /** Every spelling of a real day reads back as that day under "%Y-%m-%d". */
  lemma SpellingParsesIso(s: string, d: Date)
    requires Valid(d) && s in IsoSpellings(d)
    ensures ParseIso(s) == Some(d)
  {
    var tm, td :| tm in MonthSpellings(d.month) && td in DaySpellings(d.day)
                && s == Pad(d.year, 4) + "-" + tm + "-" + td;
    var ty := Pad(d.year, 4);
    SpellingsHaveNoSeparator(td, tm, d);
    SplitOfThree(ty, tm, td, '-');
    assert Split(s, '-') == [ty, tm, td];
    DayTokenSpellings(td, d.day);
    MonthTokenSpellings(tm, d.month);
    YearTokenPad(ty, d.year);
    assert Assemble(YearToken(ty), MonthToken(tm), DayToken(td)) == Some(d);
  }

  /** strptime "%Y-%m-%d" reads a text as day `d` exactly when the text is one of the spellings of `d`. */
  lemma ParseIsoSpellings(s: string, d: Date)
    ensures ParseIso(s) == Some(d) <==> Valid(d) && s in IsoSpellings(d)
  {
    if ParseIso(s) == Some(d) {
      ParsedIsoIsSpelling(s, d);
    }
    if Valid(d) && s in IsoSpellings(d) {
      SpellingParsesIso(s, d);
    }
  }

  /** A formatted day reads back under "%Y-%m-%d" as the same day. */
  lemma ParseIsoFormat(d: Date)
    requires Valid(d)
    ensures ParseIso(Format(d)) == Some(d)
  {
    assert Format(d) in IsoSpellings(d) by {
      assert Pad(d.month, 2) in MonthSpellings(d.month);
      assert Pad(d.day, 2) in DaySpellings(d.day);
    }
    ParseIsoSpellings(Format(d), d);
  }

  /** Two days with the same text are the same day. */
  lemma FormatInjective(a: Date, b: Date)
    requires Valid(a) && Valid(b) && Format(a) == Format(b)
    ensures a == b
  {
    ParseIsoFormat(a);
    ParseIsoFormat(b);
  }

  /**
    A raw date that spells a real day becomes that day's "YYYY-MM-DD" text,
    with the same day, month and year.
  */
  lemma NormalizeSpelling(raw: string, d: Date)
    requires Valid(d) && raw in DayMonthYearSpellings(d)
    ensures Normalize(raw) == Format(d)
  {
    ParseDayMonthYearSpellings(raw, d);
  }

  /** The sentinel comes out exactly when the raw text spells no real day. */
  lemma NormalizeSentinel(raw: string)
    ensures Normalize(raw) == UnknownDate <==> forall d :: !(Valid(d) && raw in DayMonthYearSpellings(d))
  {
    match ParseDayMonthYear(raw)
    case Some(d0) =>
      ParseDayMonthYearSpellings(raw, d0);
    case None =>
      forall d ensures !(Valid(d) && raw in DayMonthYearSpellings(d)) {
        ParseDayMonthYearSpellings(raw, d);
      }
  }

  /**
    Every normalized date other than the sentinel parses under "%Y-%m-%d", back
    to the day the raw text spelled: the `except ValueError` around that parse in
    the statistics loop can never be taken for a scanned record.
  */
  lemma NormalizeReparses(raw: string)
    ensures Normalize(raw) != UnknownDate ==>
              ParseDayMonthYear(raw).Some? && ParseIso(Normalize(raw)) == ParseDayMonthYear(raw)
  {
    if ParseDayMonthYear(raw).Some? {
      ParseIsoFormat(ParseDayMonthYear(raw).value);
    }
  }

  /** Texts that start with the same character compare as their remainders do. */
  lemma LessSameHead(c: char, x: string, y: string)
    ensures Less([c] + x, [c] + y) <==> Less(x, y)
  {
    assert ([c] + x)[1..] == x && ([c] + y)[1..] == y;
  }

  /** Texts that start with zero-padded numbers of one width compare by the numbers first. */
  lemma LessPadThen(n: nat, m: nat, width: nat, x: string, y: string)
    requires n < Pow10(width) && m < Pow10(width)
    ensures Less(Pad(n, width) + x, Pad(m, width) + y) <==> n < m || (n == m && Less(x, y))
  {
    LessAppendSameLength(Pad(n, width), Pad(m, width), x, y);
    LessPad(n, m, width);
    if Pad(n, width) == Pad(m, width) {
      PadInjective(n, m, width);
    }
  }

  /** Comparing the texts of two days as Python strings agrees with comparing the days. */
  lemma FormatOrder(a: Date, b: Date)
    requires Valid(a) && Valid(b)
    ensures Less(Format(a), Format(b)) <==> Before(a, b)
  {
    var da, db := Pad(a.day, 2), Pad(b.day, 2);
    var dayA, dayB := "-" + da, "-" + db;
    var monthA, monthB := "-" + (Pad(a.month, 2) + dayA), "-" + (Pad(b.month, 2) + dayB);
    assert Format(a) == Pad(a.year, 4) + monthA && Format(b) == Pad(b.year, 4) + monthB;
    LessSameHead('-', da, db);
    LessPadThen(a.day, b.day, 2, "", "");
    assert da + "" == da && db + "" == db;
    LessIrreflexive("");
    LessSameHead('-', Pad(a.month, 2) + dayA, Pad(b.month, 2) + dayB);
    LessPadThen(a.month, b.month, 2, dayA, dayB);
    LessPadThen(a.year, b.year, 4, monthA, monthB);
  }

  /** 29 February of a leap year is kept. */
  lemma NormalizeLeapDay(y: nat)
    requires 1 <= y <= 9999 && IsLeapYear(y)
    ensures Normalize("29/02/" + Pad(y, 4)) == Format(Date(y, 2, 29))
  {
    var d := Date(y, 2, 29);
    var raw := "29/02/" + Pad(y, 4);
    assert Pad(29, 2) == "29" && Pad(2, 2) == "02";
    assert raw == Pad(29, 2) + "/" + Pad(2, 2) + "/" + Pad(y, 4);
    assert raw in DayMonthYearSpellings(d);
    NormalizeSpelling(raw, d);
  }

  /** 29 February of any other year is an impossible day and becomes the sentinel. */
  lemma NormalizeNonLeapDay(y: nat)
    requires 1 <= y <= 9999 && !IsLeapYear(y)
    ensures Normalize("29/02/" + Pad(y, 4)) == UnknownDate
  {
    var raw := "29/02/" + Pad(y, 4);
    assert raw == "29" + "/" + "02" + "/" + Pad(y, 4);
    JoinThree("29", "02", Pad(y, 4), '/');
    JoinSplit(["29", "02", Pad(y, 4)], '/');
    YearTokenPad(Pad(y, 4), y);
  }

  lemma PadExample()
    ensures Pad(5, 2) == "05" && Pad(3, 2) == "03" && Pad(2024, 4) == "2024"
  {
  }

  /** The worked example: "05/03/2024" and "5/3/2024" both read as 5 March 2024. */
  lemma NormalizeExample()
    ensures Normalize("05/03/2024") == Format(Date(2024, 3, 5))
    ensures Normalize("5/3/2024") == Format(Date(2024, 3, 5))
  {
    var d := Date(2024, 3, 5);
    PadExample();
    assert "05/03/2024" in DayMonthYearSpellings(d) by {
      assert "05/03/2024" == Pad(5, 2) + "/" + Pad(3, 2) + "/" + Pad(2024, 4);
    }
    assert "5/3/2024" in DayMonthYearSpellings(d) by {
      assert "5/3/2024" == [DigitChar(5)] + "/" + [DigitChar(3)] + "/" + Pad(2024, 4);
    }
    NormalizeSpelling("05/03/2024", d);
    NormalizeSpelling("5/3/2024", d);
  }

  /** 5 March 2024 is written "2024-03-05". */
  lemma FormatExample()
    ensures Format(Date(2024, 3, 5)) == "2024-03-05"
  {
  }

  /** Empty text and the missing-element default both become the sentinel. */
  lemma NormalizeEmptyAndDefault()
    ensures Normalize("") == UnknownDate
    ensures Normalize(UnknownDate) == UnknownDate
  {
    NormalizeWithoutSlash("");
    NormalizeWithoutSlash(UnknownDate);
  }

  /** A text without a slash has only one "%d/%m/%Y" field, so it becomes the sentinel. */
  lemma NormalizeWithoutSlash(raw: string)
    requires '/' !in raw
    ensures Normalize(raw) == UnknownDate
  {
    assert Split(raw, '/') == [raw];
  }
}
