/** Announcements write dates without a year; the year is the one that puts the date close enough to a
    reference date of the same announcement. */
module YearCompletion {
  import opened Wrappers

  const HOUR_MS: int := 3_600_000
  const DAY_MS: int := 86_400_000
  const UTC8: int := 8 * 3_600_000

  // ---------------------------------------------------------------- the calendar

  datatype Civil = Civil(year: int, month: nat, day: nat)

  predicate Leap(year: int) { year % 4 == 0 && (year % 100 != 0 || year % 400 == 0) }

  function DaysInMonth(year: int, month: nat): nat {
    if month == 2 then (if Leap(year) then 29 else 28)
    else if month == 4 || month == 6 || month == 9 || month == 11 then 30
    else 31
  }

  /** A day that exists in the calendar. */
  predicate Real(c: Civil) { 1 <= c.month <= 12 && 1 <= c.day <= DaysInMonth(c.year, c.month) }

  function LeapsBefore(year: int): int { (year + 3) / 4 - (year + 99) / 100 + (year + 399) / 400 }

  function YearStart(year: int): int { 365 * year + LeapsBefore(year) - 719_528 }

  function MonthStart(year: int, month: nat): nat
    requires 1 <= month <= 12
  {
    if month == 1 then 0 else MonthStart(year, month - 1) + DaysInMonth(year, month - 1)
  }

  /** Days since 1970-01-01. */
  function DayNumber(c: Civil): int
    requires Real(c)
  {
    YearStart(c.year) + MonthStart(c.year, c.month) + c.day - 1
  }

  lemma YearLength(year: int)
    ensures YearStart(year + 1) == YearStart(year) + (if Leap(year) then 366 else 365)
  {
    Crossing4(year);
    Crossing100(year);
    Crossing400(year);
  }

  lemma Crossing4(year: int)
    ensures (year + 4) / 4 == (year + 3) / 4 + (if year % 4 == 0 then 1 else 0)
  {
  }

  lemma Crossing100(year: int)
    ensures (year + 100) / 100 == (year + 99) / 100 + (if year % 100 == 0 then 1 else 0)
    ensures year % 100 == 0 ==> year % 4 == 0
  {
    var q, r := year / 100, year % 100;
    assert year == 4 * (25 * q) + r;
    Floor100(year + 100, q + 1, r);
    if r == 0 { Floor100(year + 99, q, 99); } else { Floor100(year + 99, q + 1, r - 1); }
  }

  lemma Crossing400(year: int)
    ensures (year + 400) / 400 == (year + 399) / 400 + (if year % 400 == 0 then 1 else 0)
    ensures year % 400 == 0 ==> year % 100 == 0
  {
    var q, r := year / 400, year % 400;
    Floor400(year + 400, q + 1, r);
    if r == 0 { Floor400(year + 399, q, 399); Floor100(year, 4 * q, 0); } else { Floor400(year + 399, q + 1, r - 1); }
  }

  lemma Floor100(x: int, q: int, r: int)
    requires x == q * 100 + r && 0 <= r < 100
    ensures x / 100 == q && x % 100 == r
  {
  }

  lemma Floor400(x: int, q: int, r: int)
    requires x == q * 400 + r && 0 <= r < 400
    ensures x / 400 == q && x % 400 == r
  {
  }

  lemma {:induction false} YearsGrow(a: int, b: int)
    requires a <= b
    ensures YearStart(a) + 365 * (b - a) <= YearStart(b) <= YearStart(a) + 366 * (b - a)
    decreases b - a
  {
    if a < b {
      YearsGrow(a, b - 1);
      YearLength(b - 1);
    }
  }

  lemma MonthStarts(year: int)
    ensures MonthStart(year, 1) == 0 && MonthStart(year, 2) == 31
    ensures var l := if Leap(year) then 1 else 0;
            && MonthStart(year, 3) == 59 + l && MonthStart(year, 4) == 90 + l && MonthStart(year, 5) == 120 + l
            && MonthStart(year, 6) == 151 + l && MonthStart(year, 7) == 181 + l && MonthStart(year, 8) == 212 + l
            && MonthStart(year, 9) == 243 + l && MonthStart(year, 10) == 273 + l && MonthStart(year, 11) == 304 + l
            && MonthStart(year, 12) == 334 + l
  {
  }

  /** Where a date lies inside its year. */
  lemma InsideYear(c: Civil)
    requires Real(c)
    ensures YearStart(c.year) <= DayNumber(c) < YearStart(c.year + 1)
  {
    MonthStarts(c.year);
    YearLength(c.year);
  }

  lemma EarlierYear(a: Civil, b: Civil)
    requires Real(a) && Real(b)
    ensures a.year < b.year ==> DayNumber(a) < DayNumber(b)
  {
    InsideYear(a);
    InsideYear(b);
    if a.year < b.year { YearsGrow(a.year + 1, b.year); }
  }

  lemma SameYearOrder(a: Civil, b: Civil)
    requires Real(a) && Real(b) && a.year == b.year
    ensures DayNumber(a) < DayNumber(b) <==> (a.month < b.month || (a.month == b.month && a.day < b.day))
  {
    MonthStarts(a.year);
  }

  predicate Before(a: Civil, b: Civil) {
    a.year < b.year || (a.year == b.year && (a.month < b.month || (a.month == b.month && a.day < b.day)))
  }

  /** Written dates agree with the calendar: an earlier text is an earlier day. */
  lemma OrderIsDayOrder(a: Civil, b: Civil)
    requires Real(a) && Real(b)
    ensures Before(a, b) <==> DayNumber(a) < DayNumber(b)
  {
    EarlierYear(a, b);
    EarlierYear(b, a);
    if a.year == b.year { SameYearOrder(a, b); }
  }

  /** Different real dates have different day numbers. */
  lemma DayNumberIsInjective(a: Civil, b: Civil)
    requires Real(a) && Real(b) && DayNumber(a) == DayNumber(b)
    ensures a == b
  {
    OrderIsDayOrder(a, b);
    OrderIsDayOrder(b, a);
  }

  /** The same day of two years is at least 365 days apart. */
  lemma SameDayApart(month: nat, day: nat, a: int, b: int)
    requires a < b && Real(Civil(a, month, day)) && Real(Civil(b, month, day))
    ensures DayNumber(Civil(b, month, day)) - DayNumber(Civil(a, month, day)) >= 365
  {
    MonthStarts(a);
    MonthStarts(b);
    YearsGrow(a + 1, b);
    YearLength(a);
    if Leap(a) && month >= 3 && !Leap(b) {
      assert YearStart(a + 1) == YearStart(a) + 366;
    }
  }

  // ---------------------------------------------------------------- completing a year

  datatype Clock = Clock(hour: nat, minute: nat, second: nat)

  datatype Yearless = Yearless(month: nat, day: nat, time: Option<Clock>)

  /** What parsing accepts: a day that exists in a leap year, and a real time of day. */
  predicate Parsed(y: Yearless) {
    Real(Civil(2024, y.month, y.day))
    && (y.time.Some? ==> y.time.value.hour < 24 && y.time.value.minute < 60 && y.time.value.second < 60)
  }

  /** A date that survives formatting and comparing: real, with a four-digit year. */
  function IsoDate(year: int, month: nat, day: nat): Option<Civil> {
    if 1000 <= year <= 9999 && Real(Civil(year, month, day)) then Some(Civil(year, month, day)) else None
  }

  datatype Window = Window(before: nat, after: nat)

  datatype Source = FromArticle | FromVersion | FromPublished | FromCaptured

  /** The first-seen day can only be late, so its window is narrower. */
  function WindowOf(source: Source): Window {
    if source == FromCaptured then Window(30, 90) else Window(30, 330)
  }

  predicate Fits(c: Civil, reference: Civil, w: Window)
    requires Real(c) && Real(reference)
  {
    DayNumber(reference) - w.before <= DayNumber(c) <= DayNumber(reference) + w.after
  }

  function Candidate(y: Yearless, year: int, reference: Civil, w: Window): seq<Civil>
    requires Real(reference)
  {
    var date := IsoDate(year, y.month, y.day);
    if date.Some? && Fits(date.value, reference, w) then [date.value] else []
  }

  /** The dates of the reference's year and its neighbours that fall in the window. */
  function Matches(y: Yearless, reference: Civil, w: Window): seq<Civil>
    requires Real(reference)
  {
    Candidate(y, reference.year - 1, reference, w) + Candidate(y, reference.year, reference, w)
    + Candidate(y, reference.year + 1, reference, w)
  }

  datatype Completed = OnDay(day: int) | AtInstant(utcMs: int)

  function Instant(day: int, t: Clock): int {
    day * DAY_MS + t.hour * HOUR_MS + t.minute * 60_000 + t.second * 1000 - UTC8
  }

  function CompleteYear(y: Yearless, reference: Civil, w: Window): Option<Completed>
    requires Real(reference)
  {
    var matches := Matches(y, reference, w);
    if !Parsed(y) || |matches| != 1 then None
    else Some(Completion(y, DayNumber(matches[0])))
  }

  /** The year puts the date on a real day inside the window, whatever the number of its digits. */
  predicate FitsIn(y: Yearless, year: int, reference: Civil, w: Window)
    requires Real(reference)
  {
    Real(Civil(year, y.month, y.day)) && Fits(Civil(year, y.month, y.day), reference, w)
  }

  predicate FourDigits(year: int) { 1000 <= year <= 9999 }

  /** Among all years at most one fits. */
  lemma AtMostOneYear(y: Yearless, a: int, b: int, reference: Civil, w: Window)
    requires Real(reference) && w.before + w.after < 365
    requires FitsIn(y, a, reference, w) && FitsIn(y, b, reference, w)
    ensures a == b
  {
    if a < b { SameDayApart(y.month, y.day, a, b); }
    if b < a { SameDayApart(y.month, y.day, b, a); }
  }

  lemma FittingYearIsNear(y: Yearless, year: int, reference: Civil, w: Window)
    requires Real(reference) && w.before + w.after < 365 && FitsIn(y, year, reference, w)
    ensures reference.year - 1 <= year <= reference.year + 1
  {
    InsideYear(Civil(year, y.month, y.day));
    InsideYear(reference);
    if year > reference.year + 1 {
      YearsGrow(reference.year + 1, year);
    } else if year < reference.year - 1 {
      YearsGrow(year + 1, reference.year);
    }
  }

  lemma CandidateIsFit(y: Yearless, year: int, reference: Civil, w: Window)
    requires Real(reference)
    ensures Candidate(y, year, reference, w) ==
              if FourDigits(year) && FitsIn(y, year, reference, w) then [Civil(year, y.month, y.day)] else []
  {
  }

  /** The matches are the fitting year, if it has four digits. */
  lemma MatchesAre(y: Yearless, year: int, reference: Civil, w: Window)
    requires Real(reference) && w.before + w.after < 365 && FitsIn(y, year, reference, w)
    ensures Matches(y, reference, w) == if FourDigits(year) then [Civil(year, y.month, y.day)] else []
  {
    FittingYearIsNear(y, year, reference, w);
    forall other | reference.year - 1 <= other <= reference.year + 1
      ensures Candidate(y, other, reference, w) ==
                if other == year && FourDigits(year) then [Civil(year, y.month, y.day)] else []
    {
      CandidateIsFit(y, other, reference, w);
      if FitsIn(y, other, reference, w) { AtMostOneYear(y, year, other, reference, w); }
    }
  }

  lemma NoMatches(y: Yearless, reference: Civil, w: Window)
    requires Real(reference) && forall year :: !FitsIn(y, year, reference, w)
    ensures Matches(y, reference, w) == []
  {
    CandidateIsFit(y, reference.year - 1, reference, w);
    CandidateIsFit(y, reference.year, reference, w);
    CandidateIsFit(y, reference.year + 1, reference, w);
  }

  function Completion(y: Yearless, day: int): Completed {
    if y.time.None? then OnDay(day) else AtInstant(Instant(day, y.time.value))
  }

  /** Among all years: a date is completed exactly when its fitting year has four digits, and then with that
      year, the only one that fits; without a fitting year it is left alone. */
  lemma CompletionIsExact(y: Yearless, reference: Civil, w: Window)
    requires Real(reference) && Parsed(y) && w.before + w.after < 365
    ensures forall year :: FitsIn(y, year, reference, w) ==>
              CompleteYear(y, reference, w) ==
                if FourDigits(year) then Some(Completion(y, DayNumber(Civil(year, y.month, y.day)))) else None
    ensures (forall year :: !FitsIn(y, year, reference, w)) ==> CompleteYear(y, reference, w).None?
  {
    if year :| FitsIn(y, year, reference, w) {
      forall other | FitsIn(y, other, reference, w) ensures other == year {
        AtMostOneYear(y, other, year, reference, w);
      }
      MatchesAre(y, year, reference, w);
    } else {
      NoMatches(y, reference, w);
    }
  }

  /** The windows in use are short enough for all of this. */
  lemma CompletionInUse(y: Yearless, reference: Civil, source: Source)
    requires Real(reference) && Parsed(y)
    ensures CompleteYear(y, reference, WindowOf(source)).Some? <==>
              exists year :: FourDigits(year) && FitsIn(y, year, reference, WindowOf(source))
  {
    CompletionIsExact(y, reference, WindowOf(source));
  }

  /** Every day of the window lies in a four-digit year; a caller can tell from the reference alone. */
  predicate WindowHasFourDigits(reference: Civil, w: Window)
    requires Real(reference)
  {
    YearStart(1000) <= DayNumber(reference) - w.before && DayNumber(reference) + w.after < YearStart(10_000)
  }

  /** No fitting year of the date is missed. */
  ghost predicate MissesNothing(y: Yearless, reference: Civil, w: Window)
    requires Real(reference)
  {
    (exists year :: FitsIn(y, year, reference, w)) ==> CompleteYear(y, reference, w).Some?
  }

  lemma YearOfDay(c: Civil, year: int)
    requires Real(c)
    ensures c.year < year <==> DayNumber(c) < YearStart(year)
  {
    InsideYear(c);
    if c.year < year { YearsGrow(c.year + 1, year); } else { YearsGrow(year, c.year); }
  }

  lemma InsideMissesNothing(y: Yearless, reference: Civil, w: Window)
    requires Real(reference) && Parsed(y) && w.before + w.after < 365 && WindowHasFourDigits(reference, w)
    ensures MissesNothing(y, reference, w)
  {
    CompletionIsExact(y, reference, w);
    forall year | FitsIn(y, year, reference, w) ensures FourDigits(year) {
      YearOfDay(Civil(year, y.month, y.day), 1000);
      YearOfDay(Civil(year, y.month, y.day), 10_000);
    }
  }

  /** A window that leaves the four-digit years holds a day whose date, written without its year, is missed. */
  lemma OutsideMissesSome(reference: Civil, w: Window) returns (y: Yearless)
    requires Real(reference) && reference.year >= 0 && w.before + w.after < 365 && !WindowHasFourDigits(reference, w)
    ensures Parsed(y) && !MissesNothing(y, reference, w)
  {
    var day := OutsideDay(reference, w);
    var c := CivilOf(day);
    YearOfDay(c, 1000);
    YearOfDay(c, 10_000);
    y := Yearless(c.month, c.day, None);
    CompletionIsExact(y, reference, w);
    assert FitsIn(y, c.year, reference, w);
  }

  lemma OutsideDay(reference: Civil, w: Window) returns (day: int)
    requires Real(reference) && reference.year >= 0 && !WindowHasFourDigits(reference, w)
    ensures DayNumber(reference) - w.before <= day <= DayNumber(reference) + w.after && YearStart(0) <= day
    ensures day < YearStart(1000) || YearStart(10_000) <= day
  {
    var first, last := DayNumber(reference) - w.before, DayNumber(reference) + w.after;
    YearOfDay(reference, 0);
    YearsGrow(0, 1000);
    YearsGrow(0, 10_000);
    day := if last >= YearStart(10_000) then last else if first >= YearStart(0) then first else YearStart(0);
  }

  /** Exactly when completion never misses a fitting year, whatever date is to be completed. */
  lemma NothingIsMissedIff(reference: Civil, w: Window)
    requires Real(reference) && reference.year >= 0 && w.before + w.after < 365
    ensures (forall y :: Parsed(y) ==> MissesNothing(y, reference, w)) <==> WindowHasFourDigits(reference, w)
  {
    if WindowHasFourDigits(reference, w) {
      forall y | Parsed(y) ensures MissesNothing(y, reference, w) { InsideMissesNothing(y, reference, w); }
    } else {
      var y := OutsideMissesSome(reference, w);
    }
  }

  /** Both ends of the four-digit years are real limits: a year that fits is missed when it needs a fifth
      digit or has only three. */
  lemma OtherDigitsAreMissed()
    ensures var y, reference, w := Yearless(1, 1, None), Civil(9999, 12, 15), WindowOf(FromArticle);
            && Parsed(y) && Real(reference) && FitsIn(y, 10_000, reference, w) && CompleteYear(y, reference, w) == None
    ensures var y, reference, w := Yearless(6, 1, None), Civil(999, 6, 1), WindowOf(FromArticle);
            && Parsed(y) && Real(reference) && FitsIn(y, 999, reference, w) && CompleteYear(y, reference, w) == None
  {
    MonthStarts(9999);
    MonthStarts(10_000);
    CompletionIsExact(Yearless(1, 1, None), Civil(9999, 12, 15), WindowOf(FromArticle));
    assert FitsIn(Yearless(1, 1, None), 10_000, Civil(9999, 12, 15), WindowOf(FromArticle));
    CompletionIsExact(Yearless(6, 1, None), Civil(999, 6, 1), WindowOf(FromArticle));
    assert FitsIn(Yearless(6, 1, None), 999, Civil(999, 6, 1), WindowOf(FromArticle));
  }

  lemma Days(x: int, q: int, r: int)
    requires x == q * DAY_MS + r && 0 <= r < DAY_MS
    ensures x / DAY_MS == q && x % DAY_MS == r
  {
  }

  lemma Hours(x: int, q: int, r: int)
    requires x == q * HOUR_MS + r && 0 <= r < HOUR_MS
    ensures x / HOUR_MS == q && x % HOUR_MS == r
  {
  }

  lemma Minutes(x: int, q: int, r: int)
    requires x == q * 60_000 + r && 0 <= r < 60_000
    ensures x / 60_000 == q && x % 60_000 == r
  {
  }

  lemma ReadClock(day: int, t: Clock)
    requires t.hour < 24 && t.minute < 60 && t.second < 60
    ensures var local := Instant(day, t) + UTC8;
            && local / DAY_MS == day
            && local % DAY_MS / HOUR_MS == t.hour
            && local % HOUR_MS / 60_000 == t.minute
            && local % 60_000 / 1000 == t.second
  {
    var local := Instant(day, t) + UTC8;
    var inMinute := t.second * 1000;
    var inHour := t.minute * 60_000 + inMinute;
    var inDay := t.hour * HOUR_MS + inHour;
    Days(local, day, inDay);
    Hours(inDay, t.hour, inHour);
    Hours(local, day * 24 + t.hour, inHour);
    Minutes(inHour, t.minute, inMinute);
    Minutes(local, (day * 24 + t.hour) * 60 + t.minute, inMinute);
  }

  /** Reading a completed date back in UTC+8 gives the written month, day and clock, 29 February included,
      and no other calendar day reads the same. */
  lemma ReadsBack(y: Yearless, reference: Civil, w: Window, c: Civil)
    requires Real(reference) && Real(c) && CompleteYear(y, reference, w).Some?
    requires var r := CompleteYear(y, reference, w).value;
             DayNumber(c) == if r.OnDay? then r.day else (r.utcMs + UTC8) / DAY_MS
    ensures c.month == y.month && c.day == y.day && 1000 <= c.year <= 9999 && Fits(c, reference, w)
    ensures var r := CompleteYear(y, reference, w).value;
            r.AtInstant? <==> y.time.Some?
    ensures var r := CompleteYear(y, reference, w).value;
            r.AtInstant? ==>
              var local := r.utcMs + UTC8;
              local % DAY_MS / HOUR_MS == y.time.value.hour && local % HOUR_MS / 60_000 == y.time.value.minute
              && local % 60_000 / 1000 == y.time.value.second
  {
    var m := CompletedDate(y, reference, w);
    if y.time.Some? { ReadClock(DayNumber(m), y.time.value); }
    DayNumberIsInjective(c, m);
  }

  lemma CompletedDate(y: Yearless, reference: Civil, w: Window) returns (c: Civil)
    requires Real(reference) && CompleteYear(y, reference, w).Some?
    ensures Parsed(y) && Real(c) && FourDigits(c.year) && c.month == y.month && c.day == y.day && Fits(c, reference, w)
    ensures CompleteYear(y, reference, w).value == Completion(y, DayNumber(c))
  {
    CandidateIsFit(y, reference.year - 1, reference, w);
    CandidateIsFit(y, reference.year, reference, w);
    CandidateIsFit(y, reference.year + 1, reference, w);
    c := Matches(y, reference, w)[0];
  }

  // ---------------------------------------------------------------- the earliest explicit date

  function Written(c: Civil): Option<Civil> { IsoDate(c.year, c.month, c.day) }

  /** `best` is the earliest of the written dates among `dates`, if any is one. */
  predicate Earliest(best: Option<Civil>, dates: seq<Civil>) {
    && (best.None? ==> forall i :: 0 <= i < |dates| ==> Written(dates[i]).None?)
    && (best.Some? ==>
          && Real(best.value) && Written(best.value) == best && best.value in dates
          && forall i :: 0 <= i < |dates| && Written(dates[i]).Some? ==> DayNumber(best.value) <= DayNumber(dates[i]))
  }

  function AllDates(texts: seq<seq<Civil>>): seq<Civil> {
    if texts == [] then [] else AllDates(texts[..|texts| - 1]) + texts[|texts| - 1]
  }

  lemma Better(best: Option<Civil>, dates: seq<Civil>, date: Civil)
    requires Earliest(best, dates)
    ensures Earliest(
        if Written(date).Some? && (best.None? || Before(date, best.value)) then Some(date) else best,
        dates + [date])
  {
    if best.Some? && Written(date).Some? { OrderIsDayOrder(date, best.value); }
    forall i | 0 <= i < |dates| ensures (dates + [date])[i] == dates[i] {}
  }

  method EarliestIn(text: seq<Civil>, before: Option<Civil>, ghost seen: seq<Civil>) returns (best: Option<Civil>)
    requires Earliest(before, seen)
    ensures Earliest(best, seen + text)
  {
    best := before;
    assert seen + text[..0] == seen;
    for j := 0 to |text|
      invariant Earliest(best, seen + text[..j])
    {
      Better(best, seen + text[..j], text[j]);
      assert seen + text[..j] + [text[j]] == seen + text[..j+1];
      if Written(text[j]).Some? && (best.None? || Before(text[j], best.value)) { best := Some(text[j]); }
    }
    assert text[..|text|] == text;
  }

  /** `texts` holds the year-month-day triples each text mentions. */
  method EarliestExplicitDate(texts: seq<seq<Civil>>) returns (earliest: Option<Civil>)
    ensures Earliest(earliest, AllDates(texts))
  {
    earliest := None;
    for i := 0 to |texts|
      invariant Earliest(earliest, AllDates(texts[..i]))
    {
      assert texts[..i+1][..i] == texts[..i];
      earliest := EarliestIn(texts[i], earliest, AllDates(texts[..i]));
    }
    assert texts[..|texts|] == texts;
  }

  // ---------------------------------------------------------------- back from a day number

  function YearAt(day: int, year: nat): nat
    requires YearStart(year) <= day
    decreases day - YearStart(year)
  {
    YearLength(year);
    if day < YearStart(year + 1) then year else YearAt(day, year + 1)
  }

  function MonthAt(year: int, offset: nat, month: nat): nat
    requires 1 <= month <= 12
    decreases 12 - month
  {
    if month == 12 || offset < MonthStart(year, month + 1) then month else MonthAt(year, offset, month + 1)
  }

  lemma {:induction false} YearAtFinds(day: int, year: nat)
    requires YearStart(year) <= day
    ensures YearStart(YearAt(day, year)) <= day < YearStart(YearAt(day, year) + 1)
    decreases day - YearStart(year)
  {
    YearLength(year);
    if day >= YearStart(year + 1) { YearAtFinds(day, year + 1); }
  }

  lemma {:induction false} MonthAtFinds(year: int, offset: nat, month: nat)
    requires 1 <= month <= 12 && MonthStart(year, month) <= offset < (if Leap(year) then 366 else 365)
    ensures var m := MonthAt(year, offset, month);
            1 <= m <= 12 && MonthStart(year, m) <= offset < MonthStart(year, m) + DaysInMonth(year, m)
    decreases 12 - month
  {
    if month == 12 {
      MonthStarts(year);
    } else if offset >= MonthStart(year, month + 1) {
      MonthAtFinds(year, offset, month + 1);
    }
  }

  /** The calendar date of a day number; days before year 0 do not occur. */
  function CivilOf(day: int): (c: Civil)
    ensures Real(c)
    ensures day >= YearStart(0) ==> DayNumber(c) == day
  {
    if day < YearStart(0) then Civil(0, 1, 1)
    else
      YearAtFinds(day, 0);
      var year := YearAt(day, 0);
      YearLength(year);
      var offset := day - YearStart(year);
      MonthAtFinds(year, offset, 1);
      var month := MonthAt(year, offset, 1);
      Civil(year, month, offset - MonthStart(year, month) + 1)
  }
}
