/** The version timetable: administrators confirm or clear update starts and version ends one field at a
    time, each request reading first and committing later. */
module Versions {
  import opened Wrappers
  import Cas

  /** A version as typed: "07.1" and "7.1" are different keys with the same numbers. */
  datatype Version = Version(major: nat, minor: nat, majorPadded: bool, minorPadded: bool)

  function NextMinor(v: Version): Version { Version(v.major, v.minor + 1, false, false) }
  function NextMajor(v: Version): Version { Version(v.major + 1, 0, false, false) }

  datatype Basis = Stated | NextUpdate

  datatype Stamp = Stamp(ms: int, source: string)

  /** A row's fields; a blank row and a missing row read the same. */
  datatype Row = Row(start: Option<Stamp>, end: Option<Stamp>, endBasis: Option<Basis>, updatedAt: nat)

  const BLANK_ROW: Row := Row(None, None, None, 0)

  datatype Key = Key(game: string, version: Version)

  datatype Suggestion = Suggestion(game: string, version: Version, start: Option<int>, end: Option<int>)

  /** Suggestions are only ever added. */
  datatype Tables = Tables(rows: map<Key, Row>, suggestions: map<string, Suggestion>, audits: nat)

  function Get(t: Tables, k: Key): Row { if k in t.rows then t.rows[k] else BLANK_ROW }

  // ---------------------------------------------------------------- requests

  datatype Field = UpdateStart | VersionEnd

  /** What one handler call read before committing, and what it was asked for. */
  datatype Request =
    | ConfirmNext(key: Key, expected: nat, now: nat, current: Row, known: set<Version>, later: Row, shownStart: int)
    | ConfirmSuggested(key: Key, field: Field, expected: nat, now: nat, current: Row, id: string,
        suggestion: Option<Suggestion>, dependents: bool)
    | Clear(key: Key, field: Field, expected: nat, now: nat, current: Row, dependents: bool)

  datatype Refusal = Conflict | Invalid

  /** What to write, and the extra guard clause it needs. */
  datatype Extra = NoExtra | LaterIs(later: Key, start: Stamp) | NoDependents(source: string)

  /** The columns a statement sets; the others keep what is stored when it runs. */
  datatype Change = SetStart(start: Option<Stamp>) | SetEnd(end: Option<Stamp>, basis: Option<Basis>)

  function Changed(row: Row, change: Change, now: nat): Row {
    match change
    case SetStart(start) => row.(start := start, updatedAt := now)
    case SetEnd(end, basis) => row.(end := end, endBasis := basis, updatedAt := now)
  }

  datatype Planned = Refused(why: Refusal) | Write(change: Change, extra: Extra)

  function NextKnown(v: Version, known: set<Version>): Option<Version> {
    if NextMinor(v) in known then Some(NextMinor(v)) else if NextMajor(v) in known then Some(NextMajor(v)) else None
  }

  predicate Ordered(row: Row) { row.start.Some? && row.end.Some? ==> row.start.value.ms < row.end.value.ms }

  function Checked(current: Row, change: Change, extra: Extra): Planned {
    if Ordered(Changed(current, change, 0)) then Write(change, extra) else Refused(Invalid)
  }

  predicate StaleRequest(q: Request) {
    q.current.updatedAt != q.expected || (q.expected > 0 && q.now <= q.expected) || (q.Clear? && q.expected == 0)
  }

  function Plan(q: Request): Planned {
    if StaleRequest(q) then Refused(Conflict)
    else match q
      case ConfirmNext(key, _, _, current, known, later, shownStart) =>
        if NextKnown(key.version, known).None? || later.start.None? then Refused(Invalid)
        else if shownStart != later.start.value.ms then Refused(Conflict)
        else Checked(current, SetEnd(later.start, Some(NextUpdate)),
                     LaterIs(Key(key.game, NextKnown(key.version, known).value), later.start.value))
      case ConfirmSuggested(key, field, _, _, current, id, suggestion, dependents) =>
        if suggestion.None? || suggestion.value.game != key.game || suggestion.value.version != key.version
            then Refused(Invalid)
        else
          var value := if field == UpdateStart then suggestion.value.start else suggestion.value.end;
          if value.None? then Refused(Invalid)
          else if field == VersionEnd then Checked(current, SetEnd(Some(Stamp(value.value, id)), Some(Stated)), NoExtra)
          else if current.start.Some? && current.start.value.source != id then
            (if dependents then Refused(Invalid)
             else Checked(current, SetStart(Some(Stamp(value.value, id))), NoDependents(current.start.value.source)))
          else Checked(current, SetStart(Some(Stamp(value.value, id))), NoExtra)
      case Clear(_, field, _, _, current, dependents) =>
        if field == VersionEnd then
          (if current.end.None? then Refused(Invalid) else Write(SetEnd(None, None), NoExtra))
        else if current.start.None? || dependents then Refused(Invalid)
        else Write(SetStart(None), NoDependents(current.start.value.source))
  }

  /** The handlers decide step by step, leaving at the first thing that is wrong. */
  method PlanRequest(q: Request) returns (p: Planned)
    ensures p == Plan(q)
  {
    if q.current.updatedAt != q.expected { return Refused(Conflict); }
    match q {
      case Clear(_, field, expected, now, current, dependents) =>
        if expected == 0 || now <= expected { return Refused(Conflict); }
        var removed := if field == UpdateStart then current.start else current.end;
        if removed.None? { return Refused(Invalid); }
        if field == VersionEnd { return Write(SetEnd(None, None), NoExtra); }
        if dependents { return Refused(Invalid); }
        return Write(SetStart(None), NoDependents(removed.value.source));
      case ConfirmNext(key, expected, now, current, known, later, shownStart) =>
        if expected > 0 && now <= expected { return Refused(Conflict); }
        var next := NextKnown(key.version, known);
        if next.None? || later.start.None? { return Refused(Invalid); }
        if shownStart != later.start.value.ms { return Refused(Conflict); }
        if current.start.Some? && later.start.value.ms <= current.start.value.ms { return Refused(Invalid); }
        return Write(SetEnd(later.start, Some(NextUpdate)), LaterIs(Key(key.game, next.value), later.start.value));
      case ConfirmSuggested(key, field, expected, now, current, id, suggestion, dependents) =>
        if expected > 0 && now <= expected { return Refused(Conflict); }
        if suggestion.None? || suggestion.value.game != key.game || suggestion.value.version != key.version {
          return Refused(Invalid);
        }
        var value := if field == UpdateStart then suggestion.value.start else suggestion.value.end;
        if value.None? { return Refused(Invalid); }
        var extra := NoExtra;
        if field == UpdateStart && current.start.Some? && current.start.value.source != id {
          if dependents { return Refused(Invalid); }
          extra := NoDependents(current.start.value.source);
        }
        var startMs := if field == UpdateStart then value
            else if current.start.Some? then Some(current.start.value.ms) else None;
        var endMs := if field == VersionEnd then value
            else if current.end.Some? then Some(current.end.value.ms) else None;
        if startMs.Some? && endMs.Some? && endMs.value <= startMs.value { return Refused(Invalid); }
        var stamp := Some(Stamp(value.value, id));
        return Write(if field == UpdateStart then SetStart(stamp) else SetEnd(stamp, Some(Stated)), extra);
    }
  }

  // ---------------------------------------------------------------- the commit

  /** Another version of the game took its end from this update start. */
  predicate HasDependent(t: Tables, key: Key, source: string) {
    exists d :: d in t.rows && d.game == key.game && d.version != key.version
      && t.rows[d].endBasis == Some(NextUpdate) && t.rows[d].end.Some? && t.rows[d].end.value.source == source
  }

  predicate ExtraHolds(t: Tables, key: Key, extra: Extra) {
    match extra
    case NoExtra => true
    case LaterIs(later, start) => later in t.rows && t.rows[later].start == Some(start)
    case NoDependents(source) => !HasDependent(t, key, source)
  }

  function EnsureRow(key: Key): Tables -> Cas.Exec<Tables> {
    (t: Tables) => if key in t.rows then Cas.NoRows else Cas.Rows(t.(rows := t.rows[key := BLANK_ROW]), 1, 0)
  }

  predicate CanUpdate(t: Tables, q: Request, extra: Extra) {
    Get(t, q.key).updatedAt == q.expected && ExtraHolds(t, q.key, extra)
  }

  function UpdateRow(q: Request, change: Change, extra: Extra): Tables -> Cas.Exec<Tables> {
    (t: Tables) =>
      if q.key in t.rows && CanUpdate(t, q, extra)
      then Cas.Rows(t.(rows := t.rows[q.key := Changed(t.rows[q.key], change, q.now)]), 1, 0) else Cas.NoRows
  }

  function Audit(): Tables -> Cas.Exec<Tables> { (t: Tables) => Cas.Rows(t.(audits := t.audits + 1), 1, 0) }

  function CommitPlan(q: Request, change: Change, extra: Extra): Cas.Plan<Tables> {
    Cas.Plan(if q.Clear? then [] else [EnsureRow(q.key)],
        Cas.UpdateVerb, UpdateRow(q, change, extra), [Cas.Insert(1, Audit())])
  }

  datatype Answer = Done | Failed(why: Refusal)

  function Submit(q: Request, t: Tables): (Answer, Tables) {
    var p := Plan(q);
    if p.Refused? then (Failed(p.why), t)
    else
      var r := Cas.Commit(CommitPlan(q, p.change, p.extra), t);
      (if r.0 == Cas.ConditionMissed then Failed(Conflict) else Done, r.1)
  }

  method HandleVersionRequest(db: Cas.Database<Tables>, q: Request) returns (a: Answer)
    modifies db
    ensures (a, db.state) == Submit(q, old(db.state))
  {
    var p := PlanRequest(q);
    if p.Refused? { return Failed(p.why); }
    var outcome := db.ConditionalCommit(CommitPlan(q, p.change, p.extra));
    return if outcome == Cas.ConditionMissed then Failed(Conflict) else Done;
  }

  function WithRow(t: Tables, key: Key): Tables { t.(rows := t.rows[key := Get(t, key)]) }

  /** A commit either misses, leaving at most a new blank row, or changes the named columns of one row and
      writes one audit entry. */
  lemma CommitDecides(q: Request, change: Change, extra: Extra, t: Tables)
    requires q.Clear? ==> q.expected > 0
    ensures Cas.Commit(CommitPlan(q, change, extra), t) ==
            var base := if q.Clear? then t else WithRow(t, q.key);
            if CanUpdate(base, q, extra)
            then (Cas.Committed,
                Tables(base.rows[q.key := Changed(Get(t, q.key), change, q.now)], t.suggestions, t.audits + 1))
            else (Cas.ConditionMissed, base)
  {
    var plan := CommitPlan(q, change, extra);
    var base := if q.Clear? then t else WithRow(t, q.key);
    assert q.key in t.rows ==> base.rows == t.rows;
    assert plan.preamble != [] ==> plan.preamble[1..] == [];
    assert Cas.RunPreamble(plan.preamble, t) == Cas.Done(base, []);
    assert plan.effects[1..] == [];
    var g := plan.guard(base);
    assert q.key !in base.rows ==> Get(base, q.key).updatedAt == 0;
    if g.Rows? {
      var e := plan.effects[0].Chained(g.state, 1);
      assert Cas.RunChain([], e.state, 1) == Cas.Done(e.state, []);
      assert Cas.RunChain(plan.effects, g.state, 1) == Cas.Done(e.state, [1]);
    } else {
      Cas.GuardMissIsNoOp(plan, t);
    }
  }

  // ---------------------------------------------------------------- runs

  predicate StartOk(t: Tables, key: Key, row: Row) {
    row.start.Some? ==>
      var st := row.start.value;
      st.source in t.suggestions && t.suggestions[st.source].game == key.game
      && t.suggestions[st.source].version == key.version && t.suggestions[st.source].start == Some(st.ms)
  }

  /** A stated end is the one its suggestion states; a borrowed one is exactly the update start of a next
      version, value and source. */
  predicate EndOk(t: Tables, key: Key, row: Row) {
    && (row.end.Some? <==> row.endBasis.Some?)
    && (row.endBasis == Some(Stated) ==>
          var e := row.end.value;
          e.source in t.suggestions && t.suggestions[e.source].game == key.game
          && t.suggestions[e.source].version == key.version && t.suggestions[e.source].end == Some(e.ms))
    && (row.endBasis == Some(NextUpdate) ==>
          || Get(t, Key(key.game, NextMinor(key.version))).start == row.end
          || Get(t, Key(key.game, NextMajor(key.version))).start == row.end)
  }

  predicate RowOk(t: Tables, key: Key) {
    var row := Get(t, key);
    StartOk(t, key, row) && EndOk(t, key, row) && Ordered(row) && (row.updatedAt == 0 ==> row == BLANK_ROW)
  }

  ghost predicate Inv(t: Tables) { forall key :: RowOk(t, key) }

  /** Suggestions stay, and a row's `updated_at` rises whenever the row changes. */
  ghost predicate RowKept(a: Tables, b: Tables, key: Key) {
    Get(a, key).updatedAt <= Get(b, key).updatedAt
    && (Get(a, key).updatedAt == Get(b, key).updatedAt ==> Get(a, key) == Get(b, key))
  }

  ghost predicate SuggestionsKept(a: Tables, b: Tables) {
    forall id :: id in a.suggestions ==> id in b.suggestions && b.suggestions[id] == a.suggestions[id]
  }

  ghost predicate Mono(a: Tables, b: Tables) {
    (forall key :: RowKept(a, b, key)) && SuggestionsKept(a, b)
  }

  /** The row was read in some earlier state, and so was the suggestion; the clock is past zero. */
  ghost predicate RequestFrom(past: seq<Tables>, q: Request) {
    && q.now > 0
    && (exists i :: 0 <= i < |past| && q.current == Get(past[i], q.key))
    && (q.ConfirmSuggested? && q.suggestion.Some? ==>
          exists i :: 0 <= i < |past| && q.id in past[i].suggestions && past[i].suggestions[q.id] == q.suggestion.value)
  }

  ghost predicate Step(past: seq<Tables>, next: Tables)
    requires |past| > 0
  {
    var t := past[|past| - 1];
    || (next.rows == t.rows && SuggestionsKept(t, next))
    || exists q :: RequestFrom(past, q) && next == Submit(q, t).1
  }

  ghost predicate ValidRun(h: seq<Tables>) {
    |h| > 0 &&
    if |h| == 1 then h[0].rows == map[]
    else ValidRun(h[..|h| - 1]) && Step(h[..|h| - 1], h[|h| - 1])
  }

  ghost predicate History(h: seq<Tables>) {
    (forall i :: 0 <= i < |h| ==> Inv(h[i])) && forall i, j :: 0 <= i <= j < |h| ==> Mono(h[i], h[j])
  }

  /** The compare-and-set on `updated_at` means the stored row is the row that was read. */
  lemma ReadRowIsStored(h: seq<Tables>, q: Request)
    requires |h| > 0 && History(h) && RequestFrom(h, q) && q.current.updatedAt == q.expected
    requires Get(h[|h| - 1], q.key).updatedAt == q.expected
    ensures Get(h[|h| - 1], q.key) == q.current
  {
    var i :| 0 <= i < |h| && q.current == Get(h[i], q.key);
    assert Mono(h[i], h[|h| - 1]);
    assert RowKept(h[i], h[|h| - 1], q.key);
  }

  lemma ReadSuggestionIsStored(h: seq<Tables>, q: Request)
    requires |h| > 0 && History(h) && RequestFrom(h, q) && q.ConfirmSuggested? && q.suggestion.Some?
    ensures q.id in h[|h| - 1].suggestions && h[|h| - 1].suggestions[q.id] == q.suggestion.value
  {
    var i :| 0 <= i < |h| && q.id in h[i].suggestions && h[i].suggestions[q.id] == q.suggestion.value;
    assert Mono(h[i], h[|h| - 1]);
  }

  /** Blank and missing rows are the same to everyone. */
  lemma BlankRowChangesNothing(t: Tables, key: Key)
    ensures forall k :: Get(WithRow(t, key), k) == Get(t, k)
  {
  }

  /** What a change may do without breaking any row that borrowed from it. */
  lemma OtherRowsStayOk(t: Tables, t': Tables, key: Key, row: Row, other: Key)
    requires Inv(t) && t'.suggestions == t.suggestions && t'.rows.Keys >= t.rows.Keys
    requires forall k :: Get(t', k) == if k == key then row else Get(t, k)
    requires row.start == Get(t, key).start
        || Get(t, key).start.None? || !HasDependent(t, key, Get(t, key).start.value.source)
    requires other != key
    ensures RowOk(t', other)
  {
    assert RowOk(t, other);
    var r := Get(t, other);
    if r.endBasis == Some(NextUpdate) && row.start != Get(t, key).start {
      assert other in t.rows;
      assert key == Key(other.game, NextMinor(other.version)) || key == Key(other.game, NextMajor(other.version)) ==>
          key.version != other.version;
    }
  }

  /** A committed write, spelled out. */
  ghost predicate Wrote(t: Tables, t': Tables, q: Request) {
    var p := Plan(q);
    && p.Write? && ExtraHolds(t, q.key, p.extra)
    && Get(t, q.key) == q.current
    && t'.suggestions == t.suggestions && t'.rows.Keys == t.rows.Keys + {q.key}
    && (forall k :: Get(t', k) == if k == q.key then Changed(q.current, p.change, q.now) else Get(t, k))
  }

  lemma SubmitWrites(h: seq<Tables>, q: Request)
    requires |h| > 0 && History(h) && RequestFrom(h, q)
    ensures var t, t' := h[|h| - 1], Submit(q, h[|h| - 1]).1;
            || ((forall k :: Get(t', k) == Get(t, k)) && t'.suggestions == t.suggestions)
            || Wrote(t, t', q)
  {
    var t, p := h[|h| - 1], Plan(q);
    if p.Write? {
      CommitWrites(q, p.change, p.extra, t);
      if Get(t, q.key).updatedAt == q.expected { ReadRowIsStored(h, q); }
    }
  }

  /** The commit against the rows themselves: nobody can tell a blank row from a missing one. */
  lemma CommitWrites(q: Request, change: Change, extra: Extra, t: Tables)
    requires q.Clear? ==> q.expected > 0
    ensures var t' := Cas.Commit(CommitPlan(q, change, extra), t).1;
            t'.suggestions == t.suggestions
            && if CanUpdate(t, q, extra) then
                 && t'.rows.Keys == t.rows.Keys + {q.key}
                 && forall k :: Get(t', k) == if k == q.key then Changed(Get(t, q.key), change, q.now) else Get(t, k)
               else forall k :: Get(t', k) == Get(t, k)
  {
    CommitDecides(q, change, extra, t);
    BlankRowChangesNothing(t, q.key);
    SameExtra(t, q.key, extra);
  }

  lemma SameExtra(t: Tables, key: Key, extra: Extra)
    ensures ExtraHolds(WithRow(t, key), key, extra) <==> ExtraHolds(t, key, extra)
  {
    if extra.NoDependents? {
      var base := WithRow(t, key);
      assert forall d :: d in base.rows && d.version != key.version ==> d in t.rows && base.rows[d] == t.rows[d];
      assert forall d :: d in t.rows ==> d in base.rows && base.rows[d] == t.rows[d];
    }
  }

  lemma WriteKeepsInv(h: seq<Tables>, t': Tables, q: Request)
    requires |h| > 0 && History(h) && RequestFrom(h, q) && Wrote(h[|h| - 1], t', q)
    ensures Inv(t') && Mono(h[|h| - 1], t')
  {
    var t, p := h[|h| - 1], Plan(q);
    var row := Changed(q.current, p.change, q.now);
    assert RowOk(t, q.key);
    if q.ConfirmSuggested? && q.suggestion.Some? { ReadSuggestionIsStored(h, q); }
    assert row.start == Get(t, q.key).start
        || Get(t, q.key).start.None? || !HasDependent(t, q.key, Get(t, q.key).start.value.source);
    forall key ensures RowOk(t', key) {
      if key != q.key { OtherRowsStayOk(t, t', q.key, row, key); } else { OwnRowOk(t, t', q); }
    }
    assert forall key :: RowKept(t, t', key);
  }

  lemma OwnRowOk(t: Tables, t': Tables, q: Request)
    requires Inv(t) && Wrote(t, t', q) && q.now > 0
    requires q.ConfirmSuggested? && q.suggestion.Some? ==>
        q.id in t.suggestions && t.suggestions[q.id] == q.suggestion.value
    ensures RowOk(t', q.key)
  {
    assert RowOk(t, q.key);
    var v := q.key.version;
    assert NextMinor(v) != v && NextMajor(v) != v;
    assert Get(t', Key(q.key.game, NextMinor(v))) == Get(t, Key(q.key.game, NextMinor(v)));
    assert Get(t', Key(q.key.game, NextMajor(v))) == Get(t, Key(q.key.game, NextMajor(v)));
  }

  lemma {:induction false} StepKeepsHistory(past: seq<Tables>, next: Tables)
    requires |past| > 0 && History(past) && Step(past, next)
    ensures Inv(next) && Mono(past[|past| - 1], next)
  {
    var t := past[|past| - 1];
    if next.rows == t.rows && SuggestionsKept(t, next) {
      SameRows(t, next);
    } else {
      var q :| RequestFrom(past, q) && next == Submit(q, t).1;
      SubmitWrites(past, q);
      if Wrote(t, next, q) { WriteKeepsInv(past, next, q); } else { SameRows(t, next); }
    }
  }

  lemma SameRows(t: Tables, next: Tables)
    requires Inv(t) && SuggestionsKept(t, next) && forall key :: Get(next, key) == Get(t, key)
    ensures Inv(next) && Mono(t, next)
  {
    forall key ensures RowOk(next, key) { assert RowOk(t, key); }
    assert forall key :: RowKept(t, next, key);
  }

  lemma MonoTrans(a: Tables, b: Tables, c: Tables)
    requires Mono(a, b) && Mono(b, c)
    ensures Mono(a, c)
  {
    forall key ensures RowKept(a, c, key) { assert RowKept(a, b, key) && RowKept(b, c, key); }
  }

  lemma {:induction false} RunHasHistory(h: seq<Tables>)
    requires ValidRun(h)
    ensures History(h)
  {
    var k := |h| - 1;
    if k == 0 {
      forall key ensures RowOk(h[0], key) {}
    } else {
      var past := h[..k];
      RunHasHistory(past);
      StepKeepsHistory(past, h[k]);
      forall i | 0 <= i < |h| ensures Inv(h[i]) { if i < k { assert past[i] == h[i]; } }
      forall i, j | 0 <= i <= j < |h| ensures Mono(h[i], h[j]) {
        if j < k {
          assert past[i] == h[i] && past[j] == h[j];
        } else if i < k {
          assert Mono(past[i], past[k-1]) && past[i] == h[i] && past[k-1] == h[k-1];
          MonoTrans(h[i], h[k-1], h[k]);
        }
      }
    }
  }

  // ---------------------------------------------------------------- main results

  /** Copied ends never go stale: whatever requests race, an end taken from the next version equals that
      version's update start, value and source, in every state, and no version ends before it starts. */
  lemma {:induction false} BorrowedEndsNeverGoStale(h: seq<Tables>, i: nat, key: Key)
    requires ValidRun(h) && i < |h| && key in h[i].rows
    ensures var row := h[i].rows[key];
            && (row.endBasis == Some(NextUpdate) ==>
                  row.end.Some? && (exists later :: later in {NextMinor(key.version), NextMajor(key.version)}
                                      && Key(key.game, later) in h[i].rows
                                          && h[i].rows[Key(key.game, later)].start == row.end))
            && (row.start.Some? && row.end.Some? ==> row.start.value.ms < row.end.value.ms)
  {
    RunHasHistory(h);
    assert RowOk(h[i], key);
    assert NextMinor(key.version) in {NextMinor(key.version), NextMajor(key.version)};
  }

  /** A row's `updated_at` never falls, and between two states of a run it determines the row. */
  lemma {:induction false} UpdatedAtDeterminesRow(h: seq<Tables>, i: nat, j: nat, key: Key)
    requires ValidRun(h) && i <= j < |h|
    ensures Get(h[i], key).updatedAt <= Get(h[j], key).updatedAt
    ensures Get(h[i], key).updatedAt == Get(h[j], key).updatedAt ==> Get(h[i], key) == Get(h[j], key)
  {
    RunHasHistory(h);
    assert Mono(h[i], h[j]);
    assert RowKept(h[i], h[j], key);
  }

  /** Every confirmed update start is still the one its suggestion states. */
  lemma {:induction false} StartsComeFromSuggestions(h: seq<Tables>, i: nat, key: Key)
    requires ValidRun(h) && i < |h| && key in h[i].rows && h[i].rows[key].start.Some?
    ensures var st := h[i].rows[key].start.value;
            st.source in h[i].suggestions && h[i].suggestions[st.source] ==
                h[i].suggestions[st.source].(game := key.game, version := key.version, start := Some(st.ms))
  {
    RunHasHistory(h);
    assert RowOk(h[i], key);
  }

  /** Every confirmed end that was not taken from the next version is still the one its suggestion states. */
  lemma {:induction false} StatedEndsComeFromSuggestions(h: seq<Tables>, i: nat, key: Key)
    requires ValidRun(h) && i < |h| && key in h[i].rows && h[i].rows[key].end.Some?
    requires h[i].rows[key].endBasis != Some(NextUpdate)
    ensures var e := h[i].rows[key].end.value;
            e.source in h[i].suggestions && h[i].suggestions[e.source] ==
              h[i].suggestions[e.source].(game := key.game, version := key.version, end := Some(e.ms))
  {
    RunHasHistory(h);
    assert RowOk(h[i], key);
    match h[i].rows[key].endBasis.value
    case Stated =>
    case NextUpdate =>
  }
}
