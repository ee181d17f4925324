/** What a request about the version timetable is answered, and that the answer is the truth about what was written. */
module VersionAnswers {
  import opened Wrappers
  import opened Versions
  import Cas

  /** The request was made against the row it read, with a later clock; only a stored row can be cleared. */
  predicate UpToDate(q: Request) {
    && q.current.updatedAt == q.expected && (q.expected > 0 ==> q.expected < q.now)
    && (q.Clear? ==> q.expected > 0)
    && (q.ConfirmNext? && NextIsConfirmed(q) ==> q.shownStart == q.later.start.value.ms)
  }

  /** The version right after this one is known and its update start confirmed. */
  predicate NextIsConfirmed(q: Request)
    requires q.ConfirmNext?
  {
    (NextMinor(q.key.version) in q.known || NextMajor(q.key.version) in q.known) && q.later.start.Some?
  }

  /** The request makes sense for the rows it read. */
  predicate Sensible(q: Request) {
    match q
    case ConfirmNext(key, _, _, current, known, later, _) =>
      NextIsConfirmed(q) && (current.start.Some? ==> current.start.value.ms < later.start.value.ms)
    case ConfirmSuggested(key, UpdateStart, _, _, current, id, suggestion, dependents) =>
      && suggestion.Some? && suggestion.value.game == key.game && suggestion.value.version == key.version
      && suggestion.value.start.Some?
      && (current.end.Some? ==> suggestion.value.start.value < current.end.value.ms)
      && (dependents ==> current.start.None? || current.start.value.source == id)
    case ConfirmSuggested(key, VersionEnd, _, _, current, id, suggestion, _) =>
      && suggestion.Some? && suggestion.value.game == key.game && suggestion.value.version == key.version
      && suggestion.value.end.Some?
      && (current.start.Some? ==> current.start.value.ms < suggestion.value.end.value)
    case Clear(_, UpdateStart, _, _, current, dependents) => current.start.Some? && !dependents
    case Clear(_, VersionEnd, _, _, current, _) => current.end.Some?
  }

  /** What the request wants the row to be. */
  function Asked(q: Request): Row
    requires Sensible(q)
  {
    match q
    case ConfirmNext(_, _, now, current, _, later, _) =>
      Row(current.start, later.start, Some(NextUpdate), now)
    case ConfirmSuggested(_, UpdateStart, _, now, current, id, suggestion, _) =>
      Row(Some(Stamp(suggestion.value.start.value, id)), current.end, current.endBasis, now)
    case ConfirmSuggested(_, VersionEnd, _, now, current, id, suggestion, _) =>
      Row(current.start, Some(Stamp(suggestion.value.end.value, id)), Some(Stated), now)
    case Clear(_, UpdateStart, _, now, current, _) => Row(None, current.end, current.endBasis, now)
    case Clear(_, VersionEnd, _, now, current, _) => Row(current.start, None, None, now)
  }

  /** Nobody has meanwhile borrowed the update start this source gave. */
  predicate NotBorrowed(t: Tables, key: Key, source: string) {
    forall d :: d in t.rows && d.game == key.game && d.version != key.version ==>
      !(t.rows[d].endBasis == Some(NextUpdate) && t.rows[d].end.Some? && t.rows[d].end.value.source == source)
  }

  /** The timetable is still what the request read, as far as the request depends on it. */
  predicate StillSo(t: Tables, q: Request)
    requires Sensible(q)
  {
    && Get(t, q.key).updatedAt == q.expected
    && match q
       case ConfirmNext(key, _, _, _, known, later, _) =>
         var next := if NextMinor(key.version) in known then NextMinor(key.version) else NextMajor(key.version);
         Key(key.game, next) in t.rows && t.rows[Key(key.game, next)].start == later.start
       case ConfirmSuggested(key, UpdateStart, _, _, current, id, _, _) =>
         current.start.Some? && current.start.value.source != id ==> NotBorrowed(t, key, current.start.value.source)
       case ConfirmSuggested(_, VersionEnd, _, _, _, _, _, _) => true
       case Clear(key, UpdateStart, _, _, current, _) => NotBorrowed(t, key, current.start.value.source)
       case Clear(_, VersionEnd, _, _, _, _) => true
  }

  lemma BorrowedOrNot(t: Tables, key: Key, source: string)
    ensures HasDependent(t, key, source) <==> !NotBorrowed(t, key, source)
  {
  }

  /** The plan made before the commit. */
  lemma PlannedExactly(q: Request)
    requires Ordered(q.current)
    ensures !UpToDate(q) ==> Plan(q) == Refused(Conflict)
    ensures UpToDate(q) && !Sensible(q) ==> Plan(q) == Refused(Invalid)
    ensures UpToDate(q) && Sensible(q) ==> Plan(q).Write? && Changed(q.current, Plan(q).change, q.now) == Asked(q)
  {
  }

  lemma ExtraIs(q: Request, t: Tables)
    requires UpToDate(q) && Sensible(q) && Plan(q).Write?
    ensures Get(t, q.key).updatedAt == q.expected && ExtraHolds(t, q.key, Plan(q).extra) <==> StillSo(t, q)
  {
    if Plan(q).extra.NoDependents? { BorrowedOrNot(t, q.key, Plan(q).extra.source); }
  }

  lemma ReadRowIsOrdered(h: seq<Tables>, q: Request)
    requires History(h) && RequestFrom(h, q)
    ensures Ordered(q.current)
  {
    var i :| 0 <= i < |h| && q.current == Get(h[i], q.key);
    assert RowOk(h[i], q.key);
  }

  /** Success is answered exactly when the request was up to date and sensible and the timetable has not moved under
      it; then the row is what was asked for and one audit entry was written, and nothing else anyone can see has
      changed.  Any other answer means nothing has. */
  lemma {:induction false} AnswersAreTrue(h: seq<Tables>, q: Request)
    requires |h| > 0 && ValidRun(h) && RequestFrom(h, q)
    ensures var t := h[|h| - 1];
            var (answer, t') := Submit(q, t);
            && (answer == Done <==> UpToDate(q) && Sensible(q) && StillSo(t, q))
            && (forall k :: Get(t', k) == if answer == Done && k == q.key then Asked(q) else Get(t, k))
            && t'.suggestions == t.suggestions && t'.audits == t.audits + (if answer == Done then 1 else 0)
  {
    RunHasHistory(h);
    ReadRowIsOrdered(h, q);
    PlannedExactly(q);
    var t := h[|h| - 1];
    if UpToDate(q) && Sensible(q) {
      ExtraIs(q, t);
      CommitWrites(q, Plan(q).change, Plan(q).extra, t);
      CommitAnswers(q, Plan(q).change, Plan(q).extra, t);
      if Get(t, q.key).updatedAt == q.expected { ReadRowIsStored(h, q); }
    } else {
      RefusedBefore(q);
    }
  }

  lemma RefusedBefore(q: Request)
    requires Ordered(q.current) && !(UpToDate(q) && Sensible(q))
    ensures Plan(q).Refused?
  {
    PlannedExactly(q);
  }

  lemma CommitAnswers(q: Request, change: Change, extra: Extra, t: Tables)
    requires q.Clear? ==> q.expected > 0
    ensures var r := Cas.Commit(CommitPlan(q, change, extra), t);
            && r.0 in {Cas.Committed, Cas.ConditionMissed}
            && (r.0 == Cas.Committed <==> Get(t, q.key).updatedAt == q.expected && ExtraHolds(t, q.key, extra))
            && r.1.audits == t.audits + (if r.0 == Cas.Committed then 1 else 0)
  {
    CommitDecides(q, change, extra, t);
    BlankRowChangesNothing(t, q.key);
    SameExtra(t, q.key, extra);
  }

  /** Conflict is answered when the request is behind: its row, clock or shown value is not the stored one, or the
      timetable moved before the commit.  What makes no sense is answered as invalid. */
  lemma {:induction false} RefusalsAreExplained(h: seq<Tables>, q: Request)
    requires |h| > 0 && ValidRun(h) && RequestFrom(h, q)
    ensures UpToDate(q) && !Sensible(q) ==> Submit(q, h[|h| - 1]).0 == Failed(Invalid)
    ensures UpToDate(q) && Sensible(q) && !StillSo(h[|h| - 1], q) ==> Submit(q, h[|h| - 1]).0 == Failed(Conflict)
    ensures !UpToDate(q) ==> Submit(q, h[|h| - 1]).0 == Failed(Conflict)
  {
    RunHasHistory(h);
    ReadRowIsOrdered(h, q);
    PlannedExactly(q);
    AnswersAreTrue(h, q);
  }
}
