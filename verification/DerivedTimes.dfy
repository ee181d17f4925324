/** What a derived time is: the day a version updates, the instant it ends, or the one year a yearless date fits. */
module DerivedTimes {
  import opened Wrappers
  import opened Derivation
  import Time
  import YearCompletion

  /** A time nobody has decided yet. */
  predicate Undecided(s: Stamp) { s.moment == Open && s.basis == Time.Unresolved }

  /** The stamp a derivation puts in place: announced in UTC+8, with the wording it came from. */
  function Derived(m: Moment, raw: Raw): Stamp { Stamp(m, "Asia/Shanghai", raw, Time.DeterministicDerived) }

  const HOURS8: int := 28_800_000
  const DAY: int := 86_400_000

  /** Only undecided anchors and yearless dates are ever touched; estimates and decided times stay as they are. */
  lemma OnlyUndecidedAreTouched(s: Stamp, c: Context)
    ensures !Undecided(s) || s.raw.Plain? ==> DerivedStamp(s, c) == s
    ensures DerivedStamp(s, c) != s ==>
              var r := DerivedStamp(s, c); !r.moment.Open? && r == Derived(r.moment, s.raw)
  {
  }

  /** An update anchor becomes the day, in UTC+8, on which the version's confirmed update starts: no time of day. */
  lemma UpdateAnchorIsItsDay(s: Stamp, c: Context)
    requires Undecided(s) && s.raw.Anchor? && s.raw.kind == UpdateAnchor
    ensures At(c.versions, s.raw.version).start.None? ==> DerivedStamp(s, c) == s
    ensures At(c.versions, s.raw.version).start.Some? ==>
              var start, r := At(c.versions, s.raw.version).start.value, DerivedStamp(s, c);
              && r.moment.Dated? && r == Derived(r.moment, s.raw)
              && r.moment.day * DAY <= start + HOURS8 < (r.moment.day + 1) * DAY
  {
  }

  /** An end anchor becomes the confirmed instant at which the version ends. */
  lemma EndAnchorIsItsInstant(s: Stamp, c: Context)
    requires Undecided(s) && s.raw.Anchor? && s.raw.kind == EndAnchor
    ensures DerivedStamp(s, c) ==
              var end := At(c.versions, s.raw.version).end;
              if end.Some? then Derived(Exact(end.value), s.raw) else s
  {
  }

  /** The moment a date stands for in a given year: the day itself, or its written clock in UTC+8. */
  function InYear(y: YearCompletion.Yearless, year: int): Moment
    requires YearCompletion.Real(YearCompletion.Civil(year, y.month, y.day))
  {
    var day := YearCompletion.DayNumber(YearCompletion.Civil(year, y.month, y.day));
    if y.time.None? then Dated(day)
    else
      var t := y.time.value;
      Exact(day * DAY + t.hour * 3_600_000 + t.minute * 60_000 + t.second * 1000 - HOURS8)
  }

  /** The year puts a yearless date inside the window around the reference. */
  predicate FitsReference(y: YearCompletion.Yearless, year: int, r: YearReference)
    requires YearCompletion.Real(r.date)
  {
    YearCompletion.FitsIn(y, year, r.date, YearCompletion.WindowOf(r.source))
  }

  /** A yearless date takes the one four-digit year that puts it inside the window around the reference. */
  lemma YearlessTakesTheFittingYear(s: Stamp, c: Context, year: int)
    requires Undecided(s) && s.raw.Yearless? && c.year.Some? && YearCompletion.Real(c.year.value.date)
    requires YearCompletion.Parsed(s.raw.date) && FitsReference(s.raw.date, year, c.year.value)
    ensures DerivedStamp(s, c) == if 1000 <= year <= 9999 then Derived(InYear(s.raw.date, year), s.raw) else s
  {
    var y, r := s.raw.date, c.year.value;
    FittingYearCompletes(y, year, r);
    if 1000 <= year <= 9999 { CompletedMoment(y, year); }
  }

  lemma FittingYearCompletes(y: YearCompletion.Yearless, year: int, r: YearReference)
    requires YearCompletion.Real(r.date) && YearCompletion.Parsed(y) && FitsReference(y, year, r)
    ensures YearCompletion.CompleteYear(y, r.date, YearCompletion.WindowOf(r.source)) ==
              if 1000 <= year <= 9999
              then Some(YearCompletion.Completion(
                          y, YearCompletion.DayNumber(YearCompletion.Civil(year, y.month, y.day))))
              else None
  {
    YearCompletion.CompletionIsExact(y, r.date, YearCompletion.WindowOf(r.source));
  }

  lemma CompletedMoment(y: YearCompletion.Yearless, year: int)
    requires YearCompletion.Real(YearCompletion.Civil(year, y.month, y.day))
    ensures var c := YearCompletion.Completion(
                       y, YearCompletion.DayNumber(YearCompletion.Civil(year, y.month, y.day)));
            (if c.OnDay? then Dated(c.day) else Exact(c.utcMs)) == InYear(y, year)
  {
  }

  /** Without a reference, or when no year fits, it stays undecided. */
  lemma YearlessMayStayOpen(s: Stamp, c: Context)
    requires Undecided(s) && s.raw.Yearless?
    requires c.year.Some? ==>
               && YearCompletion.Real(c.year.value.date) && YearCompletion.Parsed(s.raw.date)
               && forall year :: !FitsReference(s.raw.date, year, c.year.value)
    ensures DerivedStamp(s, c) == s
  {
    if c.year.Some? {
      var w := YearCompletion.WindowOf(c.year.value.source);
      forall year ensures !YearCompletion.FitsIn(s.raw.date, year, c.year.value.date, w) {
        assert !FitsReference(s.raw.date, year, c.year.value);
      }
      YearCompletion.NoMatches(s.raw.date, c.year.value.date, w);
    }
  }

  // ---------------------------------------------------------------- the reference

  /** The date a reference instant falls on in UTC+8. */
  predicate DateOf(date: YearCompletion.Civil, ms: int) {
    && YearCompletion.Real(date)
    && YearCompletion.DayNumber(date) * DAY <= ms + HOURS8 < (YearCompletion.DayNumber(date) + 1) * DAY
  }

  /** The best of what an article offers: a date it writes out, then its version's confirmed update start, then its
      publication, then the day it was first seen. */
  lemma ReferenceIsTheBest(a: Article, versions: Table)
    requires a.publishedAt.Some? ==> a.publishedAt.value >= YearCompletion.YearStart(0) * DAY
    requires a.firstSeenAt.Some? ==> a.firstSeenAt.value >= YearCompletion.YearStart(0) * DAY
    requires a.version.Some? && At(versions, a.version.value).start.Some? ==>
               At(versions, a.version.value).start.value >= YearCompletion.YearStart(0) * DAY
    ensures var r := YearReferenceOf(a, versions);
            var start := if a.version.Some? then At(versions, a.version.value).start else None;
            if a.explicit.Some? then r == Some(YearReference(a.explicit.value, YearCompletion.FromArticle, None))
            else if start.Some? then
              (r.Some? && r.value.source == YearCompletion.FromVersion && r.value.version == a.version
               && DateOf(r.value.date, start.value))
            else if a.publishedAt.Some? then
              (r.Some? && r.value.source == YearCompletion.FromPublished && r.value.version.None?
               && DateOf(r.value.date, a.publishedAt.value))
            else if a.firstSeenAt.Some? then
              (r.Some? && r.value.source == YearCompletion.FromCaptured && r.value.version.None?
               && DateOf(r.value.date, a.firstSeenAt.value))
            else r.None?
  {
  }

  // ---------------------------------------------------------------- loading only what is needed

  /** The context with the whole timetable and the reference always loaded. */
  function FullContext(a: Article, table: Table): Context { Context(table, YearReferenceOf(a, table)) }

  /** Reading the timetable only when something in the proposal can need it changes no derived time and no row the
      derivation looks at. */
  lemma LoadingLessChangesNothing(a: Article, p: Proposal, table: Table, i: nat, j: nat)
    requires i < |p| && j < |p[i]|
    ensures var s, c, full := p[i][j].stamp, LoadContext(a, p, table), FullContext(a, table);
            && DerivedStamp(s, c) == DerivedStamp(s, full) && Uses(s, c) == Uses(s, full)
            && (Uses(s, c).Some? ==> At(c.versions, Uses(s, c).value) == At(table, Uses(s, c).value))
  {
    var s := p[i][j].stamp;
    if s.raw.Anchor? { assert HasAnchor(p); }
    if s.raw.Yearless? { assert HasYearless(p); }
  }

  lemma {:induction false} UsedOnlyIfSome(p: Proposal, c: Context, v: Version)
    requires v in UsedVersions(p, c)
    ensures exists i, j :: 0 <= i < |p| && 0 <= j < |p[i]| && Uses(p[i][j].stamp, c) == Some(v)
  {
    var k := |p| - 1;
    if v in UsedVersions(p[..k], c) {
      UsedOnlyIfSome(p[..k], c, v);
      var i, j :| 0 <= i < k && 0 <= j < |p[..k][i]| && Uses(p[..k][i][j].stamp, c) == Some(v);
      assert Uses(p[i][j].stamp, c) == Some(v);
    } else {
      var j :| 0 <= j < |p[k]| && Uses(p[k][j].stamp, c) == Some(v);
    }
  }

  /** The version a milestone's derivation looks at: its anchor's, or the one the reference date comes from. */
  predicate LooksAt(s: Stamp, c: Context, v: Version) {
    && Undecided(s)
    && (if s.raw.Anchor? then s.raw.version == v
        else s.raw.Yearless? && c.year.Some? && c.year.value.version == Some(v))
  }

  /** The key names exactly the versions some undecided milestone looks at, each with its row's version. */
  lemma KeyIsExact(p: Proposal, c: Context, v: Version)
    ensures v in DerivationKey(p, c) <==>
              exists i, j :: 0 <= i < |p| && 0 <= j < |p[i]| && LooksAt(p[i][j].stamp, c, v)
    ensures v in DerivationKey(p, c) ==> DerivationKey(p, c)[v] == At(c.versions, v).updatedAt
  {
    if v in UsedVersions(p, c) {
      UsedOnlyIfSome(p, c, v);
      var i, j :| 0 <= i < |p| && 0 <= j < |p[i]| && Uses(p[i][j].stamp, c) == Some(v);
      assert LooksAt(p[i][j].stamp, c, v);
    }
    if i, j :| 0 <= i < |p| && 0 <= j < |p[i]| && LooksAt(p[i][j].stamp, c, v) {
      UsedIsUsed(p, c, i, j);
    }
  }

  // ---------------------------------------------------------------- issues

  /** The same milestone with its time still open. */
  function Reopened(s: Stamp): Stamp { s.(moment := Open, basis := Time.Unresolved) }

  predicate IsIssue(s: Stamp, c: Context) {
    s.moment != Open && !s.raw.Plain? && DerivedStamp(Reopened(s), c) != s
  }

  lemma {:induction false} EventIssuesAre(ms: seq<Milestone>, event: nat, c: Context, place: Place)
    ensures place in EventIssues(ms, event, c) <==>
              place.event == event && place.milestone < |ms| && IsIssue(ms[place.milestone].stamp, c)
  {
    if ms != [] {
      EventIssuesAre(ms[..|ms| - 1], event, c, place);
      SameIssue(ms[|ms| - 1].stamp, c);
    }
  }

  lemma SameIssue(s: Stamp, c: Context)
    ensures Issue(s, c) <==> IsIssue(s, c)
  {
  }

  /** The places reported are exactly the decided times of derivable expressions that the derivation would not give. */
  lemma {:induction false} IssuesAre(p: Proposal, c: Context, place: Place)
    ensures place in Issues(p, c) <==>
              place.event < |p| && place.milestone < |p[place.event]|
              && IsIssue(p[place.event][place.milestone].stamp, c)
  {
    if p != [] {
      var k := |p| - 1;
      IssuesAre(p[..k], c, place);
      EventIssuesAre(p[k], k, c, place);
    }
  }
}
