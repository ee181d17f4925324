/** Correction patches: after a published milestone changes, calendars keep showing it long enough
    for every client to pick the change up. */
module CalendarPatches {
  import opened Wrappers
  import opened Time
  import opened Changes
  import opened CalendarNodes

  const CAL_PATCH_MIN_DAYS: int := 90
  const CAL_PATCH_TAIL_DAYS: int := 30

  /** A date ends at the midnight after it. */
  function RetentionTime(t: TimeValue): Option<int> {
    match t
    case DateTime(ms, _, _, _) => Some(ms)
    case DateOnly(day, _, _, _) => Some((day + 1) * DAY_MS)
    case Unknown(_, _, _) => None
  }

  predicate Withdrawn(s: EventStatus) { s == Cancelled || s == Retracted }

  predicate SamePrecision(a: TimeValue, b: TimeValue) {
    (a.DateTime? <==> b.DateTime?) && (a.DateOnly? <==> b.DateOnly?)
  }

  function KindOf(previous: Projection, current: Option<Projection>, wasDeleted: bool): Option<PatchKind> {
    if current.None? then Some(Deleted)
    else
      var now := current.value;
      var oldClock, newClock := RetentionTime(previous.time), RetentionTime(now.time);
      if wasDeleted || (Withdrawn(previous.status) && !Withdrawn(now.status) && newClock.Some?) then Some(Restored)
      else if now.status == Cancelled && previous.status != Cancelled then Some(CancelledPatch)
      else if now.status == Retracted && previous.status != Retracted then Some(RetractedPatch)
      else if now.status == Postponed && newClock.None? && oldClock.Some? then Some(PostponedUnknown)
      else if (oldClock != newClock || !SamePrecision(previous.time, now.time)) && newClock.Some? then Some(Rescheduled)
      else if now.event != previous.event || now.eventType != previous.eventType || now.nodeType != previous.nodeType
      then Some(ClassificationCorrected)
      else None
  }

  /** The latest old time any client may still show; on equal clocks the newer old time stays first. */
  function HighWater(oldTime: TimeValue, prior: Option<Patch>): Option<TimeValue> {
    var before := if prior.Some? then prior.value.oldTime else None;
    var known := before.Some? && RetentionTime(before.value).Some?;
    if RetentionTime(oldTime).None? then (if known then before else None)
    else if known && RetentionTime(before.value).value > RetentionTime(oldTime).value then before
    else Some(oldTime)
  }

  function RetainUntil(changedAt: int, highWater: Option<TimeValue>): int {
    var tail := (if highWater.Some? && RetentionTime(highWater.value).Some?
                 then RetentionTime(highWater.value).value else changedAt)
                + CAL_PATCH_TAIL_DAYS * DAY_MS;
    var least := changedAt + CAL_PATCH_MIN_DAYS * DAY_MS;
    if least > tail then least else tail
  }

  function DisplayTime(
      kind: PatchKind, previous: Projection, current: Option<Projection>, prior: Option<Patch>): Option<TimeValue> {
    if kind in {CancelledPatch, RetractedPatch, Deleted, PostponedUnknown} then
      (if RetentionTime(previous.time).None?
          then (if prior.Some? then Some(prior.value.displayTime) else None) else Some(previous.time))
    else if current.Some? then Some(current.value.time) else None
  }

  function DecideCalendarPatch(
      previous: Option<Projection>, current: Option<Projection>, prior: Option<Patch>, changedAt: int, wasDeleted: bool)
    : Option<Patch>
  {
    if previous.None? || (current.None? && previous.value.time.Unknown?) then None
    else
      var was := previous.value;
      var kind := KindOf(was, current, wasDeleted);
      if kind.None? then None
      else
        var display := DisplayTime(kind.value, was, current, prior);
        if display.None? || RetentionTime(display.value).None? then None
        else
          var highWater := HighWater(was.time, prior);
          Some(Patch(
            kind.value,
            kind.value != ClassificationCorrected || (prior.Some? && prior.value.extendsWindow),
            display.value, highWater, if current.Some? then Some(current.value.time) else None,
            RetainUntil(changedAt, highWater)))
  }

  // ---------------------------------------------------------------- what one decision promises

  function Clock(t: Option<TimeValue>): Option<int> {
    if t.Some? then RetentionTime(t.value) else None
  }

  predicate NoLower(before: Option<int>, after: Option<int>) {
    before.Some? ==> after.Some? && before.value <= after.value
  }

  /** A patch as some decision at `at` made it. */
  predicate DecidedAt(p: Patch, at: int) {
    && p.retainUntil == RetainUntil(at, p.oldTime)
    && (p.oldTime.Some? ==> Clock(p.oldTime).Some?)
    && RetentionTime(p.displayTime).Some?
    && (p.kind != ClassificationCorrected ==> p.extendsWindow)
  }

  /** Every decision keeps the milestone at least the minimum time, past both the old time and the
      remembered one, and never shows an unknown time. */
  lemma DecisionHolds(
      previous: Option<Projection>, current: Option<Projection>, prior: Option<Patch>, changedAt: int, wasDeleted: bool)
    ensures var d := DecideCalendarPatch(previous, current, prior, changedAt, wasDeleted);
            d.Some? ==>
              && DecidedAt(d.value, changedAt)
              && d.value.retainUntil >= changedAt + CAL_PATCH_MIN_DAYS * DAY_MS
              && NoLower(RetentionTime(previous.value.time), Clock(d.value.oldTime))
              && NoLower(if prior.Some? then Clock(prior.value.oldTime) else None, Clock(d.value.oldTime))
              && (Clock(d.value.oldTime).Some? ==>
                  d.value.retainUntil >= Clock(d.value.oldTime).value + CAL_PATCH_TAIL_DAYS * DAY_MS)
              && !d.value.displayTime.Unknown?
  {
  }

  /** What each kind says about the change, whatever the order in which the rules are tried. */
  lemma KindTellsTheChange(
      previous: Projection, current: Option<Projection>, prior: Option<Patch>, changedAt: int, wasDeleted: bool)
    ensures var d := DecideCalendarPatch(Some(previous), current, prior, changedAt, wasDeleted);
            d.Some? ==>
              && (d.value.kind == Deleted <==> current.None?)
              && (d.value.kind == CancelledPatch ==> current.value.status == Cancelled != previous.status)
              && (d.value.kind == RetractedPatch ==> current.value.status == Retracted != previous.status)
              && (d.value.kind == Restored ==> !Withdrawn(current.value.status) || wasDeleted)
              && (d.value.kind == PostponedUnknown ==>
                    current.value.status == Postponed && current.value.time.Unknown?
                        && d.value.displayTime == previous.time)
              && (d.value.kind == Rescheduled ==>
                    d.value.displayTime == current.value.time
                    && (RetentionTime(previous.time) != RetentionTime(current.value.time)
                        || !SamePrecision(previous.time, current.value.time)))
              && (d.value.kind == ClassificationCorrected ==>
                    RetentionTime(previous.time) == RetentionTime(current.value.time)
                        && SamePrecision(previous.time, current.value.time)
                    && (current.value.event != previous.event || current.value.eventType != previous.eventType
                        || current.value.nodeType != previous.nodeType))
  {
  }

  /** A new known time of a standing event always gets a patch; a change of wording alone never does. */
  lemma ClockChangesArePatched(previous: Projection, current: Projection, prior: Option<Patch>, changedAt: int)
    ensures var d := DecideCalendarPatch(Some(previous), Some(current), prior, changedAt, false);
            var moved := RetentionTime(previous.time) != RetentionTime(current.time) ||
                         !SamePrecision(previous.time, current.time);
            var sameFacts := previous.status == current.status && previous.event == current.event
                             && previous.eventType == current.eventType && previous.nodeType == current.nodeType;
            && (moved && !Withdrawn(current.status) && RetentionTime(current.time).Some? ==> d.Some?)
            && (!moved && sameFacts ==> d.None?)
  {
  }

  // ---------------------------------------------------------------- chains of changes

  /** A milestone in the current generation: what is shown, and the fact text it came from (None for a tombstone). */
  datatype Slot = Slot(shown: Projection, source: Option<Projection>, patch: Option<Patch>)

  /** One rebuild: the milestone's present facts, or None once it is gone, when they changed,
      and the time of the rebuild. */
  datatype Rebuild = Rebuild(facts: Option<Projection>, changedAt: int, now: int)

  function Live(patch: Option<Patch>, now: int): Option<Patch> {
    if patch.Some? && patch.value.retainUntil > now then patch else None
  }

  function OrElse(a: Option<Patch>, b: Option<Patch>): Option<Patch> { if a.Some? then a else b }

  function Decision(slot: Slot, r: Rebuild): Option<Patch> {
    var prior := Live(slot.patch, r.now);
    if r.facts.Some? then
      (if slot.source != r.facts
       then DecideCalendarPatch(Some(slot.shown), r.facts, prior, r.changedAt, slot.source.None?) else None)
    else if slot.source.None? then None
    else DecideCalendarPatch(Some(slot.shown), None, prior, r.now, false)
  }

  /** The slot after a rebuild; a deleted milestone without a live patch leaves the snapshot. */
  function Next(slot: Slot, r: Rebuild): Option<Slot> {
    var patch := OrElse(Decision(slot, r), Live(slot.patch, r.now));
    if r.facts.Some? then Some(Slot(r.facts.value, r.facts, patch))
    else if patch.None? then None
    else Some(Slot(slot.shown.(status := Cancelled, time := patch.value.displayTime), None, patch))
  }

  function DecidedTime(r: Rebuild): int { if r.facts.Some? then r.changedAt else r.now }

  /** A run of rebuilds from a first slot without a patch, with decision times never running backwards. */
  ghost predicate ValidRun(h: seq<Slot>, steps: seq<Rebuild>) {
    && |h| == |steps| + 1 && h[0].patch.None?
    && (forall i :: 0 <= i < |steps| ==> Next(h[i], steps[i]) == Some(h[i+1]))
    && (forall i, j :: 0 <= i <= j < |steps| ==> DecidedTime(steps[i]) <= DecidedTime(steps[j]))
  }

  /** A patch in a run was decided at one of the earlier rebuilds. */
  lemma {:induction false} PatchWasDecided(h: seq<Slot>, steps: seq<Rebuild>, i: nat) returns (at: int)
    requires ValidRun(h, steps) && i < |h|
    ensures h[i].patch.Some? ==> i > 0 && at <= DecidedTime(steps[i-1]) && DecidedAt(h[i].patch.value, at)
  {
    at := 0;
    if i > 0 && h[i].patch.Some? {
      var slot, r := h[i-1], steps[i-1];
      assert Next(slot, r) == Some(h[i]);
      if Decision(slot, r).Some? {
        at := DecidedTime(r);
        DecisionHolds(Some(slot.shown), r.facts, Live(slot.patch, r.now), DecidedTime(r),
          if r.facts.Some? then slot.source.None? else false);
      } else {
        at := PatchWasDecided(h, steps, i - 1);
      }
    }
  }

  /** While a patch is live, the next rebuild leaves a patch behind, and neither the remembered old time
      nor the retention ever goes down. */
  lemma {:induction false} PatchesOnlyExtend(h: seq<Slot>, steps: seq<Rebuild>, i: nat)
    requires ValidRun(h, steps) && i < |steps|
    requires Live(h[i].patch, steps[i].now).Some?
    ensures h[i+1].patch.Some?
    ensures h[i].patch.value.retainUntil <= h[i+1].patch.value.retainUntil
    ensures NoLower(Clock(h[i].patch.value.oldTime), Clock(h[i+1].patch.value.oldTime))
    ensures h[i].patch.value.extendsWindow ==> h[i+1].patch.value.extendsWindow
  {
    var slot, r := h[i], steps[i];
    var at := PatchWasDecided(h, steps, i);
    assert Next(slot, r) == Some(h[i+1]);
    assert at <= DecidedTime(r) by { assert DecidedTime(steps[i-1]) <= DecidedTime(steps[i]); }
    DecisionHolds(Some(slot.shown), r.facts, Live(slot.patch, r.now), DecidedTime(r),
      if r.facts.Some? then slot.source.None? else false);
  }

  /** Over a whole run: a patch that would still be live at a later rebuild has never been dropped or shortened. */
  lemma {:induction false} PatchesNeverShrink(h: seq<Slot>, steps: seq<Rebuild>, i: nat, j: nat)
    requires ValidRun(h, steps) && i <= j < |h| && h[i].patch.Some?
    requires forall k :: i <= k < j ==> steps[k].now < h[i].patch.value.retainUntil
    ensures h[j].patch.Some? && h[i].patch.value.retainUntil <= h[j].patch.value.retainUntil
    ensures NoLower(Clock(h[i].patch.value.oldTime), Clock(h[j].patch.value.oldTime))
    ensures h[i].patch.value.extendsWindow ==> h[j].patch.value.extendsWindow
    decreases j - i
  {
    if i < j {
      PatchesNeverShrink(h, steps, i, j - 1);
      PatchesOnlyExtend(h, steps, j - 1);
    }
  }
}
