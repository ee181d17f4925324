/** Times derived from the version timetable and from reference dates, and the key that says which
    timetable rows a derivation depends on. */
module Derivation {
  import opened Wrappers
  import Time
  import YearCompletion
  import Versions

  type Version = Versions.Version

  datatype AnchorKind = UpdateAnchor | EndAnchor

  /** A raw expression as parsed: a whole version anchor, a whole yearless date, or anything else; never both. */
  datatype Raw =
    | Anchor(text: string, version: Version, kind: AnchorKind)
    | Yearless(text: string, date: YearCompletion.Yearless)
    | Plain(text: string)

  datatype Moment = Exact(utcMs: int) | Dated(day: int) | Open

  datatype Stamp = Stamp(moment: Moment, zone: string, raw: Raw, basis: Time.Basis)

  datatype Milestone = Milestone(key: string, stamp: Stamp)

  /** The milestones of each proposed event. */
  type Proposal = seq<seq<Milestone>>

  datatype Window = Window(start: Option<int>, end: Option<int>, updatedAt: nat)

  type Table = map<Version, Window>

  const UNCONFIRMED: Window := Window(None, None, 0)

  function At(t: Table, v: Version): Window { if v in t then t[v] else UNCONFIRMED }

  /** What the reference date may come from, best first. */
  datatype Article = Article(
    explicit: Option<YearCompletion.Civil>, version: Option<Version>, publishedAt: Option<int>,
        firstSeenAt: Option<int>)

  datatype YearReference = YearReference(date: YearCompletion.Civil, source: YearCompletion.Source,
      version: Option<Version>)

  datatype Context = Context(versions: Table, year: Option<YearReference>)

  const ANNOUNCED_IN: string := "Asia/Shanghai"

  /** The day in UTC+8. */
  function BrowseDay(ms: int): int { (ms + YearCompletion.UTC8) / YearCompletion.DAY_MS }

  function BrowseDate(ms: int): YearCompletion.Civil { YearCompletion.CivilOf(BrowseDay(ms)) }

  function YearReferenceOf(a: Article, versions: Table): Option<YearReference> {
    if a.explicit.Some? then Some(YearReference(a.explicit.value, YearCompletion.FromArticle, None))
    else if a.version.Some? && At(versions, a.version.value).start.Some?
    then Some(YearReference(BrowseDate(At(versions, a.version.value).start.value),
        YearCompletion.FromVersion, a.version))
    else if a.publishedAt.Some?
        then Some(YearReference(BrowseDate(a.publishedAt.value), YearCompletion.FromPublished, None))
    else if a.firstSeenAt.Some?
        then Some(YearReference(BrowseDate(a.firstSeenAt.value), YearCompletion.FromCaptured, None))
    else None
  }

  predicate HasAnchor(p: Proposal) { exists i, j :: 0 <= i < |p| && 0 <= j < |p[i]| && p[i][j].stamp.raw.Anchor? }
  predicate HasYearless(p: Proposal) { exists i, j :: 0 <= i < |p| && 0 <= j < |p[i]| && p[i][j].stamp.raw.Yearless? }

  /** The timetable is read only when something in the proposal can need it. */
  function LoadContext(a: Article, p: Proposal, table: Table): Context {
    var anchors, yearless := HasAnchor(p), HasYearless(p);
    var byVersion := yearless && a.explicit.None? && a.version.Some?;
    var versions := if anchors || byVersion then table else map[];
    Context(versions, if yearless then YearReferenceOf(a, versions) else None)
  }

  // ---------------------------------------------------------------- one milestone

  function VersionTime(raw: Raw, w: Window): Option<Stamp>
    requires raw.Anchor?
  {
    if raw.kind == UpdateAnchor then
      (if w.start.None? then None
       else Some(Stamp(Dated(BrowseDay(w.start.value)), ANNOUNCED_IN, raw, Time.DeterministicDerived)))
    else if w.end.None? then None
    else Some(Stamp(Exact(w.end.value), ANNOUNCED_IN, raw, Time.DeterministicDerived))
  }

  function YearTime(raw: Raw, year: Option<YearReference>): Option<Stamp>
    requires raw.Yearless?
  {
    if year.None? || !YearCompletion.Real(year.value.date) then None
    else
      var c := YearCompletion.CompleteYear(raw.date, year.value.date, YearCompletion.WindowOf(year.value.source));
      if c.None? then None
      else Some(Stamp(if c.value.OnDay? then Dated(c.value.day) else Exact(c.value.utcMs),
          ANNOUNCED_IN, raw, Time.DeterministicDerived))
  }

  /** The time a derivable expression stands for, if it can be said now. */
  function Expected(raw: Raw, c: Context): Option<Stamp> {
    match raw
    case Anchor(_, v, _) => VersionTime(raw, At(c.versions, v))
    case Yearless(_, _) => YearTime(raw, c.year)
    case Plain(_) => None
  }

  /** Only undecided times are derived; official estimates are left alone. */
  predicate Derivable(s: Stamp) { s.moment.Open? && s.basis == Time.Unresolved && !s.raw.Plain? }

  function DerivedStamp(s: Stamp, c: Context): Stamp {
    if Derivable(s) && Expected(s.raw, c).Some? then Expected(s.raw, c).value else s
  }

  /** The timetable row a milestone's derivation looks at. */
  function Uses(s: Stamp, c: Context): Option<Version> {
    if !Derivable(s) then None
    else if s.raw.Anchor? then Some(s.raw.version)
    else if c.year.Some? then c.year.value.version
    else None
  }

  // ---------------------------------------------------------------- whole proposals

  function DerivedEvent(ms: seq<Milestone>, c: Context): (r: seq<Milestone>)
    ensures |r| == |ms| && forall j :: 0 <= j < |ms| ==> r[j] == ms[j].(stamp := DerivedStamp(ms[j].stamp, c))
  {
    seq(|ms|, j requires 0 <= j < |ms| => ms[j].(stamp := DerivedStamp(ms[j].stamp, c)))
  }

  function DerivedProposal(p: Proposal, c: Context): (r: Proposal)
    ensures |r| == |p| && forall i :: 0 <= i < |p| ==> r[i] == DerivedEvent(p[i], c)
  {
    seq(|p|, i requires 0 <= i < |p| => DerivedEvent(p[i], c))
  }

  function UsedIn(ms: seq<Milestone>, c: Context): set<Version> {
    set j | 0 <= j < |ms| && Uses(ms[j].stamp, c).Some? :: Uses(ms[j].stamp, c).value
  }

  function UsedVersions(p: Proposal, c: Context): set<Version> {
    if p == [] then {} else UsedVersions(p[..|p| - 1], c) + UsedIn(p[|p| - 1], c)
  }

  /** The rows used, each with the version of the row. */
  function DerivationKey(p: Proposal, c: Context): map<Version, nat> {
    map v | v in UsedVersions(p, c) :: At(c.versions, v).updatedAt
  }

  /** One milestone: its derived time, and the row it looked at recorded with its version. */
  method DeriveMilestone(m: Milestone, c: Context, before: map<Version, nat>)
    returns (r: Milestone, used: map<Version, nat>)
    ensures r == m.(stamp := DerivedStamp(m.stamp, c))
    ensures used == if Uses(m.stamp, c).Some?
        then before[Uses(m.stamp, c).value := At(c.versions, Uses(m.stamp, c).value).updatedAt] else before
  {
    r, used := m, before;
    if !m.stamp.moment.Open? || m.stamp.basis != Time.Unresolved { return; }
    var time: Option<Stamp> := None;
    if m.stamp.raw.Yearless? {
      if c.year.Some? && c.year.value.version.Some? {
        var v := c.year.value.version.value;
        used := used[v := At(c.versions, v).updatedAt];
      }
      time := YearTime(m.stamp.raw, c.year);
    } else if m.stamp.raw.Anchor? {
      used := used[m.stamp.raw.version := At(c.versions, m.stamp.raw.version).updatedAt];
      time := VersionTime(m.stamp.raw, At(c.versions, m.stamp.raw.version));
    }
    if time.Some? { r := m.(stamp := time.value); }
  }

  method DeriveEvent(ms: seq<Milestone>, c: Context, before: map<Version, nat>)
    returns (r: seq<Milestone>, used: map<Version, nat>)
    requires forall v :: v in before ==> before[v] == At(c.versions, v).updatedAt
    ensures r == DerivedEvent(ms, c)
    ensures used.Keys == before.Keys + UsedIn(ms, c)
    ensures forall v :: v in used ==> used[v] == At(c.versions, v).updatedAt
  {
    r, used := [], before;
    for j := 0 to |ms|
      invariant r == DerivedEvent(ms[..j], c)
      invariant used.Keys == before.Keys + UsedIn(ms[..j], c)
      invariant forall v :: v in used ==> used[v] == At(c.versions, v).updatedAt
    {
      assert ms[..j+1][..j] == ms[..j];
      OneMore(ms, j, c);
      var m, more := DeriveMilestone(ms[j], c, used);
      assert more.Keys == used.Keys + (if Uses(ms[j].stamp, c).Some? then {Uses(ms[j].stamp, c).value} else {});
      r, used := r + [m], more;
    }
    assert ms[..|ms|] == ms;
  }

  lemma OneMore(ms: seq<Milestone>, j: nat, c: Context)
    requires j < |ms|
    ensures UsedIn(ms[..j+1], c) == UsedIn(ms[..j], c) +
        (if Uses(ms[j].stamp, c).Some? then {Uses(ms[j].stamp, c).value} else {})
  {
    var more, less := ms[..j+1], ms[..j];
    forall v | v in UsedIn(more, c) ensures v in UsedIn(less, c) || Uses(ms[j].stamp, c) == Some(v) {
      var k :| 0 <= k < |more| && Uses(more[k].stamp, c) == Some(v);
      if k < j { assert less[k] == more[k]; }
    }
    forall v | v in UsedIn(less, c) ensures v in UsedIn(more, c) {
      var k :| 0 <= k < |less| && Uses(less[k].stamp, c) == Some(v);
      assert more[k] == less[k];
    }
    assert more[j] == ms[j];
  }

  method ApplyVersionDerivations(p: Proposal, c: Context) returns (r: Proposal, key: map<Version, nat>)
    ensures r == DerivedProposal(p, c)
    ensures key == DerivationKey(p, c)
  {
    r, key := [], map[];
    for i := 0 to |p|
      invariant r == DerivedProposal(p[..i], c)
      invariant key.Keys == UsedVersions(p[..i], c)
      invariant forall v :: v in key ==> key[v] == At(c.versions, v).updatedAt
    {
      assert p[..i+1][..i] == p[..i];
      var event, used := DeriveEvent(p[i], c, key);
      r, key := r + [event], used;
    }
    assert p[..|p|] == p;
  }

  // ---------------------------------------------------------------- issues

  /** A time given by hand for a derivable expression must be the derivation. */
  predicate Issue(s: Stamp, c: Context) { !s.moment.Open? && !s.raw.Plain? && Expected(s.raw, c) != Some(s) }

  datatype Place = Place(event: nat, milestone: nat)

  function EventIssues(ms: seq<Milestone>, event: nat, c: Context): seq<Place> {
    if ms == [] then []
    else EventIssues(ms[..|ms| - 1], event, c) + if Issue(ms[|ms| - 1].stamp, c) then [Place(event, |ms| - 1)] else []
  }

  function Issues(p: Proposal, c: Context): seq<Place> {
    if p == [] then [] else Issues(p[..|p| - 1], c) + EventIssues(p[|p| - 1], |p| - 1, c)
  }

  method VersionDerivationIssues(p: Proposal, c: Context) returns (issues: seq<Place>)
    ensures issues == Issues(p, c)
  {
    issues := [];
    for i := 0 to |p|
      invariant issues == Issues(p[..i], c)
    {
      assert p[..i+1][..i] == p[..i];
      ghost var before := issues;
      for j := 0 to |p[i]|
        invariant issues == before + EventIssues(p[i][..j], i, c)
      {
        assert p[i][..j+1][..j] == p[i][..j];
        var s := p[i][j].stamp;
        if s.moment.Open? || s.raw.Plain? { continue; }
        var expected := if s.raw.Anchor?
            then VersionTime(s.raw, At(c.versions, s.raw.version)) else YearTime(s.raw, c.year);
        if expected.None? || expected.value != s { issues := issues + [Place(i, j)]; }
      }
      assert p[i][..|p[i]|] == p[i];
    }
    assert p[..|p|] == p;
  }

  // ---------------------------------------------------------------- main results

  /** Between two timetables of one run, a row's version determines the row. */
  ghost predicate VersionDetermines(t1: Table, t2: Table) {
    forall v :: At(t1, v).updatedAt == At(t2, v).updatedAt ==> At(t1, v) == At(t2, v)
  }

  lemma {:induction false} UsedIsUsed(p: Proposal, c: Context, i: nat, j: nat)
    requires i < |p| && j < |p[i]| && Uses(p[i][j].stamp, c).Some?
    ensures Uses(p[i][j].stamp, c).value in UsedVersions(p, c)
  {
    if i == |p| - 1 {
      assert Uses(p[i][j].stamp, c).value in UsedIn(p[i], c);
    } else {
      UsedIsUsed(p[..|p| - 1], c, i, j);
    }
  }

  lemma SameWindow(p: Proposal, c1: Context, c2: Context, v: Version)
    requires VersionDetermines(c1.versions, c2.versions) && DerivationKey(p, c1) == DerivationKey(p, c2)
    requires v in UsedVersions(p, c1)
    ensures At(c1.versions, v) == At(c2.versions, v)
  {
    assert v in DerivationKey(p, c1);
  }

  /** The reference read under either timetable is the same one, unless no undated milestone looked at it. */
  lemma SameYear(a: Article, p: Proposal, t1: Table, t2: Table, i: nat, j: nat)
    requires VersionDetermines(t1, t2)
    requires DerivationKey(p, LoadContext(a, p, t1)) == DerivationKey(p, LoadContext(a, p, t2))
    requires i < |p| && j < |p[i]| && Derivable(p[i][j].stamp) && p[i][j].stamp.raw.Yearless?
    ensures LoadContext(a, p, t1).year == LoadContext(a, p, t2).year
  {
    var c1, c2 := LoadContext(a, p, t1), LoadContext(a, p, t2);
    if c1.year.Some? && c1.year.value.version.Some? {
      UsedIsUsed(p, c1, i, j);
      SameWindow(p, c1, c2, c1.year.value.version.value);
    }
    if c2.year.Some? && c2.year.value.version.Some? {
      UsedIsUsed(p, c2, i, j);
      SameWindow(p, c2, c1, c2.year.value.version.value);
    }
  }

  /** Equal keys mean equal derivations: whoever approved one has seen the other. */
  lemma KeyDeterminesDerivation(a: Article, p: Proposal, t1: Table, t2: Table)
    requires VersionDetermines(t1, t2)
    requires DerivationKey(p, LoadContext(a, p, t1)) == DerivationKey(p, LoadContext(a, p, t2))
    ensures DerivedProposal(p, LoadContext(a, p, t1)) == DerivedProposal(p, LoadContext(a, p, t2))
  {
    var c1, c2 := LoadContext(a, p, t1), LoadContext(a, p, t2);
    forall i, j | 0 <= i < |p| && 0 <= j < |p[i]|
        ensures DerivedStamp(p[i][j].stamp, c1) == DerivedStamp(p[i][j].stamp, c2) {
      var s := p[i][j].stamp;
      if Derivable(s) {
        if s.raw.Anchor? {
          UsedIsUsed(p, c1, i, j);
          SameWindow(p, c1, c2, s.raw.version);
        } else {
          SameYear(a, p, t1, t2, i, j);
        }
      }
    }
    forall i | 0 <= i < |p| ensures DerivedEvent(p[i], c1) == DerivedEvent(p[i], c2) {}
  }

  /** The timetable of one game as a state of the confirm and clear protocol stores it. */
  function TableOf(t: Versions.Tables, game: string): Table {
    map v: Version | v in ConfirmedIn(t, game) :: WindowOf(Versions.Get(t, Versions.Key(game, v)))
  }

  function ConfirmedIn(t: Versions.Tables, game: string): set<Version> {
    set k: Versions.Key | k in t.rows && k.game == game :: k.version
  }

  function WindowOf(r: Versions.Row): Window {
    Window(if r.start.Some? then Some(r.start.value.ms) else None,
        if r.end.Some? then Some(r.end.value.ms) else None, r.updatedAt)
  }

  lemma TableAt(t: Versions.Tables, game: string, v: Version)
    ensures At(TableOf(t, game), v) == WindowOf(Versions.Get(t, Versions.Key(game, v)))
  {
    assert Versions.Key(game, v) in t.rows ==> v in TableOf(t, game);
  }

  /** Over any run of confirmations and clearings, and any two moments of it. */
  lemma {:induction false} KeyIsFaithfulOverRuns(
      h: seq<Versions.Tables>, i: nat, j: nat, game: string, a: Article, p: Proposal)
    requires Versions.ValidRun(h) && i < |h| && j < |h|
    requires DerivationKey(p, LoadContext(a, p, TableOf(h[i], game))) ==
        DerivationKey(p, LoadContext(a, p, TableOf(h[j], game)))
    ensures DerivedProposal(p, LoadContext(a, p, TableOf(h[i], game))) ==
        DerivedProposal(p, LoadContext(a, p, TableOf(h[j], game)))
  {
    forall v | At(TableOf(h[i], game), v).updatedAt == At(TableOf(h[j], game), v).updatedAt
      ensures At(TableOf(h[i], game), v) == At(TableOf(h[j], game), v)
    {
      TableAt(h[i], game, v);
      TableAt(h[j], game, v);
      if i <= j {
        Versions.UpdatedAtDeterminesRow(h, i, j, Versions.Key(game, v));
      } else {
        Versions.UpdatedAtDeterminesRow(h, j, i, Versions.Key(game, v));
      }
    }
    KeyDeterminesDerivation(a, p, TableOf(h[i], game), TableOf(h[j], game));
  }

  /** Deriving again changes nothing, not even after reloading the context. */
  lemma DerivationIsIdempotent(a: Article, p: Proposal, table: Table)
    ensures var c := LoadContext(a, p, table);
            var once := DerivedProposal(p, c);
            LoadContext(a, once, table) == c && DerivedProposal(once, c) == once
  {
    var c := LoadContext(a, p, table);
    var once: Proposal := DerivedProposal(p, c);
    assert forall i, j :: 0 <= i < |p| && 0 <= j < |p[i]| ==> once[i][j].stamp.raw == p[i][j].stamp.raw;
    SameKinds(p, once);
    forall i | 0 <= i < |p| ensures DerivedEvent(once[i], c) == once[i] {}
  }

  lemma SameKinds(p: Proposal, q: Proposal)
    requires |p| == |q| && forall i :: 0 <= i < |p| ==> |p[i]| == |q[i]|
    requires forall i, j :: 0 <= i < |p| && 0 <= j < |p[i]| ==> q[i][j].stamp.raw == p[i][j].stamp.raw
    ensures HasAnchor(p) == HasAnchor(q) && HasYearless(p) == HasYearless(q)
  {
    if i, j :| 0 <= i < |p| && 0 <= j < |p[i]| && p[i][j].stamp.raw.Anchor? { assert q[i][j].stamp.raw.Anchor?; }
    if i, j :| 0 <= i < |q| && 0 <= j < |q[i]| && q[i][j].stamp.raw.Anchor? { assert p[i][j].stamp.raw.Anchor?; }
    if i, j :| 0 <= i < |p| && 0 <= j < |p[i]| && p[i][j].stamp.raw.Yearless? { assert q[i][j].stamp.raw.Yearless?; }
    if i, j :| 0 <= i < |q| && 0 <= j < |q[i]| && q[i][j].stamp.raw.Yearless? { assert p[i][j].stamp.raw.Yearless?; }
  }

  lemma {:induction false} EventIssuesAfter(ms: seq<Milestone>, event: nat, c: Context)
    ensures EventIssues(DerivedEvent(ms, c), event, c) == EventIssues(ms, event, c)
  {
    if ms != [] {
      var k := |ms| - 1;
      EventIssuesAfter(ms[..k], event, c);
      assert DerivedEvent(ms, c)[..k] == DerivedEvent(ms[..k], c);
    }
  }

  /** Deriving neither creates nor hides an issue: the output has exactly the issues the already timed
      milestones had. */
  lemma {:induction false} DerivationAddsNoIssues(p: Proposal, c: Context)
    ensures Issues(DerivedProposal(p, c), c) == Issues(p, c)
  {
    if p != [] {
      var k := |p| - 1;
      DerivationAddsNoIssues(p[..k], c);
      EventIssuesAfter(p[k], k, c);
      assert DerivedProposal(p, c)[..k] == DerivedProposal(p[..k], c);
    }
  }
}
