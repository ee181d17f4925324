/** A personal feed: its window, its items, the bound after which an output has left by itself, and
    the guard that stops a feed from silently losing entries. */
module PersonalFeed {
  import opened Wrappers
  import opened Time
  import opened Changes
  import opened CalendarNodes
  import opened CalendarPatches

  const FEED_PAST_DAYS: int := 30
  const FEED_FUTURE_DAYS: int := 180
  const FEED_SHRINK_GUARD_MIN: int := 5

  function DayOf(now: int): int { now / DAY_MS }

  /** Dates compare with dates; they never become instants. */
  predicate InFeedWindow(t: TimeValue, now: int) {
    match t
    case DateTime(ms, _, _, _) =>
      (DayOf(now) - FEED_PAST_DAYS) * DAY_MS <= ms < (DayOf(now) + FEED_FUTURE_DAYS + 1) * DAY_MS
    case DateOnly(day, _, _, _) => DayOf(now) - FEED_PAST_DAYS <= day < DayOf(now) + FEED_FUTURE_DAYS + 1
    case Unknown(_, _, _) => false
  }

  /** The day a known time falls on, in UTC. */
  function TimeDay(t: TimeValue): int
    requires !t.Unknown?
  {
    if t.DateTime? then t.utcMs / DAY_MS else t.day
  }

  /** Instants and dates are cut at the same days: thirty back, one hundred and eighty ahead, both included. */
  lemma FeedWindowIsWholeDays(t: TimeValue, now: int)
    ensures InFeedWindow(t, now) <==>
              !t.Unknown? && DayOf(now) - FEED_PAST_DAYS <= TimeDay(t) <= DayOf(now) + FEED_FUTURE_DAYS
  {
    if t.DateTime? { assert t.utcMs / DAY_MS * DAY_MS <= t.utcMs < (t.utcMs / DAY_MS + 1) * DAY_MS; }
  }

  datatype Item = Item(node: Node, time: TimeValue, cancelled: bool, alarms: set<int>, base: bool, patch: bool)

  function Leads(config: Config, node: Node): set<int> {
    set r | r in MatchingRules(config, node, REMINDER_RULES) :: r.lead
  }

  /** What one node contributes to the feed at `now`. */
  function Project(config: Config, node: Node, now: int): Option<Item> {
    var reason := ReasonFor(config, node);
    if reason.None? then None
    else
      var patch := Live(node.patch, now);
      if node.tombstone && patch.None? then None
      else
        var time := if patch.Some? then patch.value.displayTime else node.projection.time;
        var cancelled := node.tombstone || Withdrawn(node.projection.status)
            || (patch.Some? && patch.value.kind == PostponedUnknown);
        if time.Unknown? then None
        else if reason.value.ReminderAssociated? && !ExactAlarmTime(time) then None
        else
          var base := !node.tombstone && InFeedWindow(time, now);
          if !base && !(patch.Some? && patch.value.extendsWindow) then None
          else
            Some(Item(node, time, cancelled,
                      if config.alarms && !cancelled && ExactAlarmTime(time) then Leads(config, node) else {},
                      base, patch.Some?))
  }

  function Items(config: Config, nodes: seq<Node>, now: int): seq<Item> {
    if nodes == [] then []
    else
      var item := Project(config, nodes[|nodes| - 1], now);
      Items(config, nodes[..|nodes| - 1], now) + if item.Some? then [item.value] else []
  }

  /** The items of a feed in the order of their milestone ids. */
  function PersonalNodes(config: Config, nodes: seq<Node>, now: int): seq<Item> {
    SortById(Items(config, ById(nodes), now))
  }

  // ---------------------------------------------------------------- the final order

  function IdOf(item: Item): string { item.node.projection.milestone }

  /** Milestone ids are hexadecimal hashes in lower case, so comparing characters is their locale's order. */
  predicate Precedes(a: string, b: string) {
    b != [] && (a == [] || a[0] < b[0] || (a[0] == b[0] && Precedes(a[1..], b[1..])))
  }

  function InsertById(item: Item, sorted: seq<Item>): (r: seq<Item>)
    ensures |r| == |sorted| + 1
  {
    if sorted != [] && Precedes(IdOf(sorted[0]), IdOf(item)) then [sorted[0]] + InsertById(item, sorted[1..])
    else [item] + sorted
  }

  function SortById(items: seq<Item>): (r: seq<Item>)
    ensures |r| == |items|
  {
    if items == [] then [] else InsertById(items[|items| - 1], SortById(items[..|items| - 1]))
  }

  predicate Ascending(items: seq<Item>) {
    forall i, j :: 0 <= i < j < |items| ==> Precedes(IdOf(items[i]), IdOf(items[j]))
  }

  lemma {:induction false} OneWay(a: string, b: string)
    ensures a != b ==> Precedes(a, b) != Precedes(b, a)
    ensures a == b ==> !Precedes(a, b)
  {
    if a != [] && b != [] {
      OneWay(a[1..], b[1..]);
      assert a == [a[0]] + a[1..] && b == [b[0]] + b[1..];
    }
  }

  lemma {:induction false} PrecedesTrans(a: string, b: string, c: string)
    requires Precedes(a, b) && Precedes(b, c)
    ensures Precedes(a, c)
  {
    if a != [] && a[0] == b[0] == c[0] { PrecedesTrans(a[1..], b[1..], c[1..]); }
  }

  lemma {:induction false} InsertMembers(item: Item, sorted: seq<Item>)
    ensures forall x :: x in InsertById(item, sorted) <==> x == item || x in sorted
  {
    if sorted != [] && Precedes(IdOf(sorted[0]), IdOf(item)) {
      InsertMembers(item, sorted[1..]);
      assert sorted == [sorted[0]] + sorted[1..];
    }
  }

  lemma AscendingCons(first: Item, rest: seq<Item>)
    requires Ascending(rest) && forall x :: x in rest ==> Precedes(IdOf(first), IdOf(x))
    ensures Ascending([first] + rest)
  {
  }

  lemma {:induction false} InsertAscends(item: Item, sorted: seq<Item>)
    requires Ascending(sorted) && forall x :: x in sorted ==> IdOf(x) != IdOf(item)
    ensures Ascending(InsertById(item, sorted))
  {
    if sorted != [] {
      var first, rest := sorted[0], sorted[1..];
      assert sorted == [first] + rest;
      forall x | x in rest ensures Precedes(IdOf(first), IdOf(x)) {
        var j :| 0 <= j < |rest| && rest[j] == x;
        assert sorted[j+1] == x;
      }
      assert Ascending(rest) by { assert forall i :: 0 <= i < |rest| ==> rest[i] == sorted[i+1]; }
      OneWay(IdOf(first), IdOf(item));
      if Precedes(IdOf(first), IdOf(item)) {
        InsertAscends(item, rest);
        InsertMembers(item, rest);
        AscendingCons(first, InsertById(item, rest));
      } else {
        forall x | x in rest ensures Precedes(IdOf(item), IdOf(x)) { PrecedesTrans(IdOf(item), IdOf(first), IdOf(x)); }
        AscendingCons(item, sorted);
      }
    }
  }

  /** Sorting keeps the items and, when no milestone repeats, leaves them strictly ascending. */
  lemma {:induction false} SortIsExact(items: seq<Item>)
    ensures forall x :: x in SortById(items) <==> x in items
    ensures DistinctItems(items) ==> Ascending(SortById(items))
  {
    if items != [] {
      var k := |items| - 1;
      SortIsExact(items[..k]);
      InsertMembers(items[k], SortById(items[..k]));
      assert items == items[..k] + [items[k]];
      if DistinctItems(items) {
        forall x | x in items[..k] ensures IdOf(x) != IdOf(items[k]) {
          var i :| 0 <= i < k && items[i] == x;
        }
        InsertAscends(items[k], SortById(items[..k]));
      }
    }
  }

  lemma AscendingIsDistinct(items: seq<Item>)
    requires Ascending(items)
    ensures DistinctItems(items)
  {
    forall i, j | 0 <= i < j < |items| ensures IdOf(items[i]) != IdOf(items[j]) {
      OneWay(IdOf(items[i]), IdOf(items[j]));
    }
  }

  // ---------------------------------------------------------------- the loop

  method PersonalCalendarNodes(config: Config, nodes: seq<Node>, now: int) returns (result: seq<Item>)
    ensures result == PersonalNodes(config, nodes, now)
  {
    var unique := IndexById(nodes);
    result := [];
    for i := 0 to |unique|
      invariant result == Items(config, unique[..i], now)
    {
      assert unique[..i+1][..i] == unique[..i];
      var node := unique[i];
      var reason := ReasonFor(config, node);
      if reason.None? { continue; }
      var patch := Live(node.patch, now);
      if node.tombstone && patch.None? { continue; }
      var cancelled := node.tombstone || Withdrawn(node.projection.status);
      if patch.Some? && patch.value.kind == PostponedUnknown { cancelled := true; }
      var time := if patch.Some? then patch.value.displayTime else node.projection.time;
      if time.Unknown? { continue; }
      if reason.value.ReminderAssociated? && !ExactAlarmTime(time) { continue; }
      var base := !node.tombstone && InFeedWindow(time, now);
      if !base && !(patch.Some? && patch.value.extendsWindow) { continue; }
      var alarms := if config.alarms && !cancelled && ExactAlarmTime(time) then Leads(config, node) else {};
      result := result + [Item(node, time, cancelled, alarms, base, patch.Some?)];
    }
    assert unique[..|unique|] == unique;
    result := SortById(result);
  }

  lemma {:induction false} ItemsAre(config: Config, nodes: seq<Node>, now: int)
    ensures forall x :: x in Items(config, nodes, now) <==> x.node in nodes && Project(config, x.node, now) == Some(x)
  {
    if nodes != [] {
      ItemsAre(config, nodes[..|nodes| - 1], now);
      assert nodes == nodes[..|nodes| - 1] + [nodes[|nodes| - 1]];
    }
  }

  predicate DistinctItems(items: seq<Item>) {
    forall i, j :: 0 <= i < j < |items| ==> items[i].node.projection.milestone != items[j].node.projection.milestone
  }

  lemma {:induction false} ItemsDistinct(config: Config, nodes: seq<Node>, now: int)
    requires DistinctMilestones(nodes)
    ensures DistinctItems(Items(config, nodes, now))
  {
    if nodes != [] {
      var k := |nodes| - 1;
      ItemsDistinct(config, nodes[..k], now);
      ItemsAre(config, nodes[..k], now);
      forall x | x in Items(config, nodes[..k], now)
          ensures x.node.projection.milestone != nodes[k].projection.milestone {
        var i :| 0 <= i < k && nodes[..k][i] == x.node;
        assert nodes[i].projection.milestone != nodes[k].projection.milestone;
      }
    }
  }

  /** A feed shows each milestone at most once, in the order of their ids, and exactly the nodes that project. */
  lemma FeedIsExact(config: Config, nodes: seq<Node>, now: int)
    ensures DistinctItems(PersonalNodes(config, nodes, now)) && Ascending(PersonalNodes(config, nodes, now))
    ensures forall x :: x in PersonalNodes(config, nodes, now) <==>
        x.node in ById(nodes) && Project(config, x.node, now) == Some(x)
  {
    ByIdIsDistinct(nodes);
    ItemsDistinct(config, ById(nodes), now);
    ItemsAre(config, ById(nodes), now);
    SortIsExact(Items(config, ById(nodes), now));
    AscendingIsDistinct(PersonalNodes(config, nodes, now));
  }

  /** Alarms are only on standing items with an exact time, and an item that is there only because of a
      reminder does carry that reminder's alarm unless it is withdrawn. */
  lemma AlarmsAreHonest(config: Config, nodes: seq<Node>, now: int, item: Item)
    requires item in PersonalNodes(config, nodes, now)
    ensures item.alarms != {} ==> config.alarms && !item.cancelled && ExactAlarmTime(item.time)
    ensures ReasonFor(config, item.node).Some?
    ensures ReasonFor(config, item.node).value.ReminderAssociated? && !item.cancelled ==> item.alarms != {}
    ensures forall lead :: lead in item.alarms ==>
        exists r :: r in REMINDER_RULES && Selects(config, r, item.node) && r.lead == lead
  {
    FeedIsExact(config, nodes, now);
    MatchingRulesAre(config, item.node, REMINDER_RULES);
    var rules := MatchingRules(config, item.node, REMINDER_RULES);
    if rules != [] { assert rules[0] in rules && rules[0].lead in Leads(config, item.node); }
  }

  // ---------------------------------------------------------------- corrections stay visible

  /** A live patch that extends the window and shows a known time shows the milestone. */
  lemma ExtendingPatchShows(config: Config, node: Node, now: int)
    requires node.patch.Some? && node.patch.value.extendsWindow && !node.patch.value.displayTime.Unknown?
    requires InScope(config, node) && BaseVisible(config, node) && now < node.patch.value.retainUntil
    ensures Project(config, node, now).Some? && Project(config, node, now).value.time == node.patch.value.displayTime
  {
  }

  /** Over every run of rebuilds: once some rebuild has left a patch other than a bare classification
      correction, the milestone is in every feed whose filters show it until that patch would have ended,
      through every later change, kept, replaced, reclassified or deleted, and always at a known time. */
  lemma {:induction false} PatchedNodesStayVisible(
      h: seq<Slot>, steps: seq<Rebuild>, i: nat, j: nat, config: Config, node: Node, now: int)
    requires ValidRun(h, steps) && i <= j < |h|
    requires h[i].patch.Some? && h[i].patch.value.kind != ClassificationCorrected
    requires forall k :: i <= k < j ==> steps[k].now < h[i].patch.value.retainUntil
    requires now < h[i].patch.value.retainUntil
    requires node.patch == h[j].patch && InScope(config, node) && BaseVisible(config, node)
    ensures node.patch.Some? && h[i].patch.value.retainUntil <= node.patch.value.retainUntil
    ensures Project(config, node, now).Some? && Project(config, node, now).value.time == node.patch.value.displayTime
  {
    PatchesNeverShrink(h, steps, i, j);
    var first := PatchWasDecided(h, steps, i);
    var last := PatchWasDecided(h, steps, j);
    ExtendingPatchShows(config, node, now);
  }

  /** And that is at least the minimum number of days from the change that made the patch. */
  lemma {:induction false} FreshPatchesLast(h: seq<Slot>, steps: seq<Rebuild>, i: nat)
    requires ValidRun(h, steps) && i < |steps| && Decision(h[i], steps[i]).Some?
    ensures h[i+1].patch == Decision(h[i], steps[i])
    ensures h[i+1].patch.value.retainUntil >= DecidedTime(steps[i]) + CAL_PATCH_MIN_DAYS * DAY_MS
    ensures NoLower(RetentionTime(h[i].shown.time), Clock(h[i+1].patch.value.oldTime))
  {
    var slot, r := h[i], steps[i];
    assert Next(slot, r) == Some(h[i+1]);
    DecisionHolds(Some(slot.shown), r.facts, Live(slot.patch, r.now), DecidedTime(r),
      r.facts.Some? && slot.source.None?);
  }

  // ---------------------------------------------------------------- natural exit

  function WindowExit(t: TimeValue, now: int): int {
    match t
    case DateTime(ms, _, _, _) => (ms / DAY_MS + FEED_PAST_DAYS + 1) * DAY_MS
    case DateOnly(day, _, _, _) => (day * DAY_MS / DAY_MS + FEED_PAST_DAYS + 1) * DAY_MS
    case Unknown(_, _, _) => now
  }

  function Max(a: int, b: int): int { if a < b then b else a }

  function ItemExit(item: Item, now: int): int {
    Max(WindowExit(item.time, now),
        Max(if item.node.tombstone then now else WindowExit(item.node.projection.time, now),
            if item.node.patch.Some? then item.node.patch.value.retainUntil else now))
  }

  function NaturalExit(items: seq<Item>, now: int): int {
    if items == [] then now
    else Max(NaturalExit(items[..|items| - 1], now), ItemExit(items[|items| - 1], now))
  }

  method FeedNaturalExitAt(items: seq<Item>, now: int) returns (exit: int)
    ensures exit == NaturalExit(items, now)
  {
    exit := now;
    for i := 0 to |items|
      invariant exit == NaturalExit(items[..i], now)
    {
      assert items[..i+1][..i] == items[..i];
      exit := Max(exit, ItemExit(items[i], now));
    }
    assert items[..|items|] == items;
  }

  lemma {:induction false} NaturalExitCovers(items: seq<Item>, now: int)
    ensures now <= NaturalExit(items, now)
    ensures forall x :: x in items ==> ItemExit(x, now) <= NaturalExit(items, now)
  {
    if items != [] {
      NaturalExitCovers(items[..|items| - 1], now);
      assert items == items[..|items| - 1] + [items[|items| - 1]];
    }
  }

  lemma OutOfWindow(t: TimeValue, served: int, now: int)
    requires t.Unknown? || WindowExit(t, served) <= now
    ensures !InFeedWindow(t, now)
  {
    if t.DateTime? {
      assert t.utcMs < (t.utcMs / DAY_MS + 1) * DAY_MS;
      assert t.utcMs / DAY_MS + FEED_PAST_DAYS + 1 <= now / DAY_MS;
    } else if t.DateOnly? {
      assert t.day * DAY_MS / DAY_MS == t.day;
      assert t.day + FEED_PAST_DAYS + 1 <= now / DAY_MS;
    }
  }

  /** From its natural exit on, nothing of an output is shown from its stored node, under any configuration. */
  lemma NaturalExitIsAnUpperBound(config: Config, nodes: seq<Node>, served: int, later: Config, now: int, item: Item)
    requires item in PersonalNodes(config, nodes, served)
    requires now >= NaturalExit(PersonalNodes(config, nodes, served), served)
    ensures Project(later, item.node, now).None?
  {
    NaturalExitCovers(PersonalNodes(config, nodes, served), served);
    assert ItemExit(item, served) <= now;
    assert Live(item.node.patch, now).None?;
    if !item.node.tombstone { OutOfWindow(item.node.projection.time, served, now); }
  }

  // ---------------------------------------------------------------- the shrink guard

  datatype Baseline = Baseline(
    count: Option<nat>, viewRevision: Option<nat>, generation: Option<int>, servedAt: Option<int>,
        naturalExit: Option<int>)

  /** A drop of more than two fifths of a calendar that was not tiny. */
  predicate NeedsEvidence(b: Baseline, count: nat, viewRevision: nat) {
    && b.count.Some? && b.count.value >= FEED_SHRINK_GUARD_MIN
    && b.viewRevision == Some(viewRevision)
    && 5 * (b.count.value - count) > 2 * b.count.value
  }

  predicate ServedUnchanged(node: Node, b: Baseline) {
    if node.contentGeneration.Some? then b.generation.Some? && node.contentGeneration.value <= b.generation.value
    else node.changedAt.Some? && b.servedAt.Some? && node.changedAt.value <= b.servedAt.value
  }

  function Unchanged(nodes: seq<Node>, b: Baseline): seq<Node> {
    if nodes == [] then []
    else
      var last := nodes[|nodes| - 1];
      Unchanged(nodes[..|nodes| - 1], b) + if ServedUnchanged(last, b) then [last] else []
  }

  datatype ShrinkInput = ShrinkInput(
    baseline: Baseline, viewRevision: nat, config: Config, current: seq<Node>, previous: Option<seq<Node>>, now: int)

  predicate Shows(items: seq<Item>, milestone: string) {
    exists i :: 0 <= i < |items| && items[i].node.projection.milestone == milestone
  }

  /** Left by its own stored content: the window passed or the patch ended. */
  predicate LeftByItself(x: ShrinkInput, item: Item) { PersonalNodes(x.config, [item.node], x.now) == [] }

  /** The milestone's current node was reclassified at a higher revision and no longer matches. */
  predicate Reclassified(x: ShrinkInput, item: Item) {
    exists c :: c in ById(x.current) && c.projection.milestone == item.node.projection.milestone
      && c.patch.Some? && c.patch.value.kind == ClassificationCorrected
      && c.revision > item.node.revision
      && PersonalNodes(x.config, [c], x.now) == []
  }

  predicate Explained(x: ShrinkInput, item: Item) { LeftByItself(x, item) || Reclassified(x, item) }

  function After(x: ShrinkInput): seq<Item> { PersonalNodes(x.config, x.current, x.now) }

  function Before(x: ShrinkInput, servedAt: int): seq<Item> {
    PersonalNodes(x.config, if x.previous.Some? then x.previous.value else Unchanged(x.current, x.baseline), servedAt)
  }

  function Absent(before: seq<Item>, after: seq<Item>): seq<Item> {
    if before == [] then []
    else
      var last := before[|before| - 1];
      Absent(before[..|before| - 1], after) + if Shows(after, last.node.projection.milestone) then [] else [last]
  }

  /** The part of the drop no evidence speaks about. */
  function Missing(x: ShrinkInput, servedAt: int): int
    requires x.baseline.count.Some?
  {
    var count, before, after := x.baseline.count.value, Before(x, servedAt), After(x);
    if x.previous.Some? then count - |before|
    else count - |after| - Max(0, |Absent(before, after)| - Max(0, |before| - count))
  }

  predicate PastNaturalExit(x: ShrinkInput, servedAt: int) {
    x.baseline.naturalExit.Some? && x.baseline.naturalExit.value >= servedAt && x.now >= x.baseline.naturalExit.value
  }

  /** When an output that needs evidence may still be served. */
  predicate Justified(x: ShrinkInput) {
    && x.baseline.count.Some? && x.baseline.servedAt.Some?
    && var at := x.baseline.servedAt.value;
       && (x.previous.Some? ==> |Before(x, at)| <= x.baseline.count.value)
       && (forall item :: item in Absent(Before(x, at), After(x)) ==> Explained(x, item))
       && (5 * Missing(x, at) <= 2 * x.baseline.count.value || PastNaturalExit(x, at))
  }

  predicate Blocked(x: ShrinkInput) { NeedsEvidence(x.baseline, |After(x)|, x.viewRevision) && !Justified(x) }

  method FilterUnchanged(nodes: seq<Node>, b: Baseline) returns (kept: seq<Node>)
    ensures kept == Unchanged(nodes, b)
  {
    kept := [];
    for i := 0 to |nodes|
      invariant kept == Unchanged(nodes[..i], b)
    {
      assert nodes[..i+1][..i] == nodes[..i];
      if ServedUnchanged(nodes[i], b) { kept := kept + [nodes[i]]; }
    }
    assert nodes[..|nodes|] == nodes;
  }

  /** One absent item's evidence. */
  method IsExplained(x: ShrinkInput, unique: seq<Node>, item: Item) returns (ok: bool)
    requires unique == ById(x.current)
    ensures ok <==> Explained(x, item)
  {
    var alone := PersonalCalendarNodes(x.config, [item.node], x.now);
    if |alone| == 0 { return true; }
    var id := item.node.projection.milestone;
    var k := IndexOf(unique, id);
    ByIdIsDistinct(x.current);
    if k < |unique| {
      var current := unique[k];
      assert forall c :: c in unique && c.projection.milestone == id ==> c == current;
      if current.patch.Some? && current.patch.value.kind == ClassificationCorrected
          && current.revision > item.node.revision {
        var now := PersonalCalendarNodes(x.config, [current], x.now);
        return |now| == 0;
      }
    }
    return false;
  }

  /** Counts the absent items, stopping at the first one without evidence. */
  method CountExplained(x: ShrinkInput, before: seq<Item>, after: seq<Item>) returns (ok: bool, explained: nat)
    ensures ok <==> forall item :: item in Absent(before, after) ==> Explained(x, item)
    ensures ok ==> explained == |Absent(before, after)|
  {
    var unique := IndexById(x.current);
    explained := 0;
    for i := 0 to |before|
      invariant explained == |Absent(before[..i], after)|
      invariant forall item :: item in Absent(before[..i], after) ==> Explained(x, item)
    {
      assert before[..i+1][..i] == before[..i];
      if Shows(after, before[i].node.projection.milestone) { continue; }
      var one := IsExplained(x, unique, before[i]);
      if !one {
        AbsentKeeps(before, after, i);
        return false, explained;
      }
      explained := explained + 1;
    }
    assert before[..|before|] == before;
    return true, explained;
  }

  method FeedShrinkBlocked(x: ShrinkInput) returns (blocked: bool)
    ensures blocked <==> Blocked(x)
  {
    var after := PersonalCalendarNodes(x.config, x.current, x.now);
    if !NeedsEvidence(x.baseline, |after|, x.viewRevision) { return false; }
    if x.baseline.servedAt.None? || x.baseline.count.None? { return true; }
    var servedAt, count := x.baseline.servedAt.value, x.baseline.count.value;
    var evidence: seq<Node>;
    if x.previous.Some? { evidence := x.previous.value; } else { evidence := FilterUnchanged(x.current, x.baseline); }
    var before := PersonalCalendarNodes(x.config, evidence, servedAt);
    if x.previous.Some? && |before| > count { return true; }
    var ok, explained := CountExplained(x, before, after);
    if !ok { return true; }
    var missing := if x.previous.Some? then count - |before|
      else count - |after| - Max(0, explained - Max(0, |before| - count));
    if 5 * missing <= 2 * count { return false; }
    return !PastNaturalExit(x, servedAt);
  }

  lemma {:induction false} AbsentKeeps(before: seq<Item>, after: seq<Item>, i: nat)
    requires i < |before| && !Shows(after, before[i].node.projection.milestone)
    ensures before[i] in Absent(before, after)
    decreases |before|
  {
    if i < |before| - 1 { AbsentKeeps(before[..|before| - 1], after, i); }
  }

  lemma {:induction false} AbsentAre(before: seq<Item>, after: seq<Item>)
    ensures forall x :: x in Absent(before, after) <==> x in before && !Shows(after, x.node.projection.milestone)
    ensures |Absent(before, after)| <= |before|
  {
    if before != [] {
      AbsentAre(before[..|before| - 1], after);
      assert before == before[..|before| - 1] + [before[|before| - 1]];
    }
  }

  // ---------------------------------------------------------------- never blocks wrongly

  /** The baseline a success at `at` records. */
  predicate Recorded(b: Baseline, config: Config, nodes: seq<Node>, viewRevision: nat, at: int) {
    && b.count == Some(|PersonalNodes(config, nodes, at)|) && b.servedAt == Some(at)
        && b.viewRevision == Some(viewRevision)
  }

  lemma SingleProjects(config: Config, node: Node, now: int)
    ensures PersonalNodes(config, [node], now) == [] <==> Project(config, node, now).None?
  {
    var one := [node];
    assert one[..0] == [];
    assert ById(one) == Put(ById([]), node) == [node];
    assert SortById([]) == [];
    assert Items(config, one, now) == Items(config, [], now) +
        if Project(config, node, now).Some? then [Project(config, node, now).value] else [];
  }

  /** An item of the same nodes that is absent now has left by its own content. */
  lemma AbsentFromSameNodes(config: Config, nodes: seq<Node>, at: int, now: int, item: Item)
    requires item in PersonalNodes(config, nodes, at)
    requires !Shows(PersonalNodes(config, nodes, now), item.node.projection.milestone)
    ensures Project(config, item.node, now).None?
  {
    FeedIsExact(config, nodes, at);
    FeedIsExact(config, nodes, now);
    var later := PersonalNodes(config, nodes, now);
    forall y | y in later ensures Shows(later, y.node.projection.milestone) {
      var i :| 0 <= i < |later| && later[i] == y;
    }
  }

  /** With the same nodes as at the served time, every absent item is explained. */
  lemma SameNodesAreExplained(x: ShrinkInput, at: int)
    requires Before(x, at) == PersonalNodes(x.config, x.current, at)
    ensures forall item :: item in Absent(Before(x, at), After(x)) ==> Explained(x, item)
  {
    AbsentAre(Before(x, at), After(x));
    forall item | item in Absent(Before(x, at), After(x)) ensures Explained(x, item) {
      AbsentFromSameNodes(x.config, x.current, at, x.now, item);
      SingleProjects(x.config, item.node, x.now);
    }
  }

  /** The mere passage of time is never blocked: nodes, configuration and view revision as at the recorded
      success, compared with that same generation. */
  lemma TimeIsNotBlocked(x: ShrinkInput, at: int)
    requires Recorded(x.baseline, x.config, x.current, x.viewRevision, at)
    requires x.previous == Some(x.current)
    ensures !Blocked(x)
  {
    SameNodesAreExplained(x, at);
  }

  lemma {:induction false} AllUnchanged(nodes: seq<Node>, b: Baseline)
    requires forall n :: n in nodes ==> ServedUnchanged(n, b)
    ensures Unchanged(nodes, b) == nodes
  {
    if nodes != [] {
      var k := |nodes| - 1;
      assert ServedUnchanged(nodes[k], b) && forall n :: n in nodes[..k] ==> n in nodes;
      AllUnchanged(nodes[..k], b);
    }
  }

  function Ids(items: seq<Item>): set<string> { set i | 0 <= i < |items| :: items[i].node.projection.milestone }

  lemma IdsAppend(items: seq<Item>, last: Item)
    ensures Ids(items + [last]) == Ids(items) + {last.node.projection.milestone}
  {
    var more := items + [last];
    forall id | id in Ids(items) ensures id in Ids(more) {
      var i :| 0 <= i < |items| && items[i].node.projection.milestone == id;
      assert more[i].node.projection.milestone == id;
    }
    assert more[|items|] == last;
  }

  lemma {:induction false} DistinctCount(items: seq<Item>)
    requires DistinctItems(items)
    ensures |Ids(items)| == |items|
  {
    if items != [] {
      var k := |items| - 1;
      DistinctCount(items[..k]);
      IdsAppend(items[..k], items[k]);
      assert items == items[..k] + [items[k]];
    }
  }

  /** Items either stay or are absent, so what stays is at most what is shown now. */
  lemma {:induction false} KeptAndAbsent(before: seq<Item>, after: seq<Item>)
    requires DistinctItems(before) && DistinctItems(after)
    ensures |before| - |Absent(before, after)| <= |after|
  {
    var absent := Absent(before, after);
    KeptIds(before, after);
    DistinctCount(before);
    DistinctCount(after);
    var kept := Ids(before) - Ids(absent);
    assert kept <= Ids(after);
    Subset(kept, Ids(after));
    Subset(Ids(absent), Ids(before));
    assert |kept| == |Ids(before)| - |Ids(absent)|;
    DistinctCount(absent);
  }

  lemma Subset(a: set<string>, b: set<string>)
    requires a <= b
    ensures |a| <= |b| && |b - a| == |b| - |a|
  {
    assert b == a + (b - a);
  }

  lemma ShowsMembers(items: seq<Item>, id: string)
    ensures Shows(items, id) <==> id in Ids(items)
    ensures Shows(items, id) <==> exists x :: x in items && x.node.projection.milestone == id
  {
    if x :| x in items && x.node.projection.milestone == id {
      var i :| 0 <= i < |items| && items[i] == x;
    }
    if i :| 0 <= i < |items| && items[i].node.projection.milestone == id { assert items[i] in items; }
  }

  lemma KeptIds(before: seq<Item>, after: seq<Item>)
    requires DistinctItems(before)
    ensures DistinctItems(Absent(before, after))
    ensures Ids(Absent(before, after)) == Ids(before) - Ids(after)
  {
    AbsentDistinct(before, after);
    AbsentAre(before, after);
    forall id ensures id in Ids(Absent(before, after)) <==> id in Ids(before) - Ids(after) {
      ShowsMembers(Absent(before, after), id);
      ShowsMembers(before, id);
      ShowsMembers(after, id);
    }
  }

  lemma {:induction false} AbsentDistinct(before: seq<Item>, after: seq<Item>)
    requires DistinctItems(before)
    ensures DistinctItems(Absent(before, after))
  {
    if before != [] {
      var k := |before| - 1;
      AbsentDistinct(before[..k], after);
      AbsentAre(before[..k], after);
      forall y | y in Absent(before[..k], after)
          ensures y.node.projection.milestone != before[k].node.projection.milestone {
        assert y in before[..k];
        var m :| 0 <= m < k && before[m] == y;
      }
    }
  }

  /** The same with the served generation already reclaimed: it is enough that every node's content has
      been the same since that generation. */
  lemma TimeIsNotBlockedWithoutHistory(x: ShrinkInput, at: int)
    requires Recorded(x.baseline, x.config, x.current, x.viewRevision, at)
    requires x.previous.None? && x.baseline.generation.Some?
    requires forall n :: n in x.current ==>
        n.contentGeneration.Some? && n.contentGeneration.value <= x.baseline.generation.value
    ensures !Blocked(x)
  {
    AllUnchanged(x.current, x.baseline);
    SameNodesAreExplained(x, at);
    AbsentOrShown(x.config, x.current, at, x.now);
  }

  lemma AbsentOrShown(config: Config, nodes: seq<Node>, at: int, now: int)
    ensures var before, after := PersonalNodes(config, nodes, at), PersonalNodes(config, nodes, now);
            |before| - |Absent(before, after)| <= |after|
  {
    FeedIsExact(config, nodes, at);
    FeedIsExact(config, nodes, now);
    KeptAndAbsent(PersonalNodes(config, nodes, at), PersonalNodes(config, nodes, now));
  }

  // ---------------------------------------------------------------- never passes wrongly

  /** What letting a shrunk output through with whole evidence means: every entry recomputed at the served
      time is still there, has left by its own stored content, or was reclassified at a higher revision;
      and the entries nothing could be recomputed for are few, or their saved natural exit has passed. */
  lemma PassedLossIsExplained(x: ShrinkInput)
    requires x.baseline.viewRevision == Some(x.viewRevision)
    requires x.baseline.count.Some? && x.baseline.count.value >= 5
    requires 5 * (x.baseline.count.value - |PersonalNodes(x.config, x.current, x.now)|) > 2 * x.baseline.count.value
    requires x.previous.Some? && !Blocked(x)
    ensures x.baseline.servedAt.Some?
    ensures var at := x.baseline.servedAt.value;
            && (forall item :: item in PersonalNodes(x.config, x.previous.value, at) ==>
                  || Shows(After(x), item.node.projection.milestone)
                  || Project(x.config, item.node, x.now).None?
                  || Reclassified(x, item))
            && 0 <= x.baseline.count.value - |PersonalNodes(x.config, x.previous.value, at)|
            && (5 * (x.baseline.count.value - |PersonalNodes(x.config, x.previous.value, at)|)
                  <= 2 * x.baseline.count.value
                || PastNaturalExit(x, at))
  {
    var at := x.baseline.servedAt.value;
    var before, after := Before(x, at), After(x);
    AbsentAre(before, after);
    forall item | item in before && !Shows(after, item.node.projection.milestone)
      ensures Project(x.config, item.node, x.now).None? || Reclassified(x, item)
    {
      assert item in Absent(before, after);
      SingleProjects(x.config, item.node, x.now);
    }
  }

  /** With partial evidence: more than two fifths of the served count never disappears without either a
      per-item explanation or the passing of the natural exit. */
  lemma PartialEvidenceStillBounds(x: ShrinkInput)
    requires x.baseline.viewRevision == Some(x.viewRevision)
    requires x.baseline.count.Some? && x.baseline.count.value >= 5
    requires 5 * (x.baseline.count.value - |PersonalNodes(x.config, x.current, x.now)|) > 2 * x.baseline.count.value
    requires x.previous.None? && !Blocked(x)
    ensures x.baseline.servedAt.Some?
    ensures var at := x.baseline.servedAt.value;
            && (forall item :: item in Absent(Before(x, at), After(x)) ==> Explained(x, item))
            && (5 * (x.baseline.count.value - |After(x)| - |Absent(Before(x, at), After(x))|)
                  <= 2 * x.baseline.count.value
                || PastNaturalExit(x, at))
  {
  }

  /** Passing by the saved exit is sound: nothing of the output it was saved for is shown from its stored
      node any more. */
  lemma PassingByExitIsSound(x: ShrinkInput, served: Config, nodes: seq<Node>, at: int, item: Item)
    requires x.baseline.servedAt == Some(at)
    requires x.baseline.naturalExit == Some(NaturalExit(PersonalNodes(served, nodes, at), at))
    requires PastNaturalExit(x, at) && item in PersonalNodes(served, nodes, at)
    ensures Project(x.config, item.node, x.now).None?
  {
    NaturalExitIsAnUpperBound(served, nodes, at, x.config, x.now, item);
  }
}
