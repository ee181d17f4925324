/** Exactly when a change of a published milestone gets a correction patch, of which kind, and with which times. */
module PatchDecisions {
  import opened Wrappers
  import opened Time
  import opened Changes
  import opened CalendarNodes
  import opened CalendarPatches

  predicate Known(t: TimeValue) { !t.Unknown? }

  /** When a known time is over: an instant at once, a date at the midnight after it. */
  function OverAt(t: TimeValue): int
    requires Known(t)
  {
    if t.DateTime? then t.utcMs else (t.day + 1) * 86_400_000
  }

  predicate SameMoment(a: TimeValue, b: TimeValue) {
    (a.DateTime? && b.DateTime? && a.utcMs == b.utcMs) || (a.DateOnly? && b.DateOnly? && a.day == b.day)
  }

  /** The milestone came back: it had been deleted, or withdrawn and now stands at a known time. */
  predicate CameBack(previous: Projection, now: Projection, wasDeleted: bool) {
    wasDeleted || (previous.status in {Cancelled, Retracted} && now.status in {Scheduled, Postponed} && Known(now.time))
  }

  /** What changed about the milestone apart from coming back and being withdrawn. */
  predicate LostItsTime(previous: Projection, now: Projection) {
    now.status == Postponed && !Known(now.time) && Known(previous.time)
  }

  predicate Withdrew(previous: Projection, now: Projection, to: EventStatus) {
    now.status == to && previous.status != to
  }

  predicate Steady(previous: Projection, now: Projection, wasDeleted: bool) {
    && !CameBack(previous, now, wasDeleted) && !Withdrew(previous, now, Cancelled)
    && !Withdrew(previous, now, Retracted) && !LostItsTime(previous, now)
  }

  predicate Reclassified(previous: Projection, now: Projection) {
    now.event != previous.event || now.eventType != previous.eventType || now.nodeType != previous.nodeType
  }

  /** A time subscribers have seen: the previous one, or the one an earlier patch has been showing. */
  predicate HasSeenTime(previous: Projection, prior: Option<Patch>) {
    Known(previous.time) || (prior.Some? && Known(prior.value.displayTime))
  }

  predicate Gets(d: Option<Patch>, kind: PatchKind) { d.Some? && d.value.kind == kind }

  /** A deleted milestone gets a patch exactly when its time was known. */
  lemma DeletionIsPatched(previous: Projection, prior: Option<Patch>, changedAt: int, wasDeleted: bool)
    ensures var d := DecideCalendarPatch(Some(previous), None, prior, changedAt, wasDeleted);
            (d.Some? <==> Known(previous.time)) && (d.Some? ==> d.value.kind == Deleted)
  {
  }

  /** A milestone that is still there: each kind of patch exactly under its own condition, and none otherwise. */
  lemma KindsAreExact(
      previous: Projection, now: Projection, prior: Option<Patch>, changedAt: int, wasDeleted: bool)
    ensures var d := DecideCalendarPatch(Some(previous), Some(now), prior, changedAt, wasDeleted);
            var back := CameBack(previous, now, wasDeleted);
            var steady := Steady(previous, now, wasDeleted);
            && (Gets(d, Restored) <==> back && Known(now.time))
            && (Gets(d, CancelledPatch) <==>
                  !back && Withdrew(previous, now, Cancelled) && HasSeenTime(previous, prior))
            && (Gets(d, RetractedPatch) <==>
                  !back && Withdrew(previous, now, Retracted) && HasSeenTime(previous, prior))
            && (Gets(d, PostponedUnknown) <==> !back && LostItsTime(previous, now))
            && (Gets(d, Rescheduled) <==> steady && Known(now.time) && !SameMoment(previous.time, now.time))
            && (Gets(d, ClassificationCorrected) <==>
                  steady && Known(now.time) && SameMoment(previous.time, now.time) && Reclassified(previous, now))
            && !Gets(d, Deleted)
  {
    ClocksDiffer(previous.time, now.time);
  }

  lemma ClocksDiffer(a: TimeValue, b: TimeValue)
    ensures Known(b) ==>
              (SameMoment(a, b) <==> RetentionTime(a) == RetentionTime(b) && SamePrecision(a, b))
  {
  }

  /** What a patch shows: a withdrawn, deleted or undated milestone stays at the time subscribers have seen, every
      other one moves to its new time.  A bare reclassification alone does not reach beyond the feed window. */
  lemma ShownTimeIsExact(
      previous: Projection, current: Option<Projection>, prior: Option<Patch>, changedAt: int, wasDeleted: bool)
    ensures var d := DecideCalendarPatch(Some(previous), current, prior, changedAt, wasDeleted);
            d.Some? ==>
              && (if d.value.kind in {Restored, Rescheduled, ClassificationCorrected}
                  then current.Some? && d.value.displayTime == current.value.time
                  else d.value.displayTime ==
                         if Known(previous.time) || prior.None? then previous.time else prior.value.displayTime)
              && d.value.newTime == (if current.Some? then Some(current.value.time) else None)
              && (d.value.extendsWindow <==>
                    d.value.kind != ClassificationCorrected || (prior.Some? && prior.value.extendsWindow))
  {
  }

  /** How long a patch lasts: ninety days from the change, and thirty from the later of the old time and the one an
      earlier patch remembered; it remembers that later one, and on a tie the newer. */
  lemma RetentionIsExact(
      previous: Projection, current: Option<Projection>, prior: Option<Patch>, changedAt: int, wasDeleted: bool)
    ensures var d := DecideCalendarPatch(Some(previous), current, prior, changedAt, wasDeleted);
            var remembered := if prior.Some? then prior.value.oldTime else None;
            d.Some? ==>
              && d.value.oldTime == Later(if Known(previous.time) then Some(previous.time) else None, remembered)
              && var base := if d.value.oldTime.Some? then OverAt(d.value.oldTime.value) else changedAt;
                 && d.value.retainUntil >= changedAt + 90 * 86_400_000 && d.value.retainUntil >= base + 30 * 86_400_000
                 && d.value.retainUntil in {changedAt + 90 * 86_400_000, base + 30 * 86_400_000}
  {
  }

  /** The known one of two times that is over later; the first when they are over together. */
  function Later(a: Option<TimeValue>, b: Option<TimeValue>): (t: Option<TimeValue>)
    ensures t.Some? ==> Known(t.value)
  {
    var x := if a.Some? && Known(a.value) then a else None;
    var y := if b.Some? && Known(b.value) then b else None;
    if x.None? then y else if y.None? || OverAt(y.value) <= OverAt(x.value) then x else y
  }

  // ---------------------------------------------------------------- rebuilds

  predicate LiveAt(patch: Option<Patch>, now: int) { patch.Some? && now < patch.value.retainUntil }

  /** A rebuild of unchanged facts leaves them and a living patch alone, and drops a patch that is over. */
  lemma SameFactsKeepThePatch(slot: Slot, facts: Projection, changedAt: int, now: int)
    requires slot.source == Some(facts)
    ensures Next(slot, Rebuild(Some(facts), changedAt, now)) ==
              Some(Slot(facts, Some(facts), if LiveAt(slot.patch, now) then slot.patch else None))
  {
  }

  /** A rebuild of other facts shows them from then on, under the patch this change gets against what was shown,
      or under the old one while that lives. */
  lemma NewFactsAreShown(slot: Slot, facts: Projection, changedAt: int, now: int)
    requires slot.source != Some(facts)
    ensures var live := if LiveAt(slot.patch, now) then slot.patch else None;
            var d := DecideCalendarPatch(Some(slot.shown), Some(facts), live, changedAt, slot.source.None?);
            Next(slot, Rebuild(Some(facts), changedAt, now)) ==
              Some(Slot(facts, Some(facts), if d.Some? then d else live))
  {
  }

  /** A milestone that disappears stays as a cancelled one, at a time subscribers have seen, for as long as a patch
      lives; without one it leaves at once. */
  lemma GoneMilestonesStayForTheirPatch(slot: Slot, changedAt: int, now: int)
    ensures var next := Next(slot, Rebuild(None, changedAt, now));
            var known := slot.source.Some? && Known(slot.shown.time);
            && (next.Some? <==> known || LiveAt(slot.patch, now))
            && (next.Some? ==>
                  && next.value.source.None? && next.value.patch.Some?
                  && next.value.shown == slot.shown.(status := Cancelled, time := next.value.patch.value.displayTime)
                  && (if known then next.value.patch.value.kind == Deleted
                                    && next.value.patch.value.displayTime == slot.shown.time
                                    && next.value.patch.value.retainUntil >= now + 90 * 86_400_000
                      else next.value.patch == slot.patch))
  {
  }
}
