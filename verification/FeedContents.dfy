/** What a personal feed contains, said on the nodes' own fields, and exactly when the shrink guard stops it. */
module FeedContents {
  import opened Wrappers
  import opened Time
  import opened Changes
  import opened CalendarNodes
  import opened CalendarPatches
  import opened PersonalFeed

  predicate HasLivePatch(node: Node, now: int) { node.patch.Some? && now < node.patch.value.retainUntil }

  /** The time a feed would show for a node: the patch's while it lives, the stored one otherwise. */
  function ShownTime(node: Node, now: int): TimeValue {
    if HasLivePatch(node, now) then node.patch.value.displayTime else node.projection.time
  }

  predicate Cancelling(node: Node, now: int) {
    || node.tombstone || node.projection.status == Cancelled || node.projection.status == Retracted
    || (HasLivePatch(node, now) && node.patch.value.kind == PostponedUnknown)
  }

  /** A rule the subscriber chose fits the node. */
  predicate Reminds(config: Config, rule: Rule, node: Node) {
    && rule in REMINDER_RULES && rule.id in config.rules
    && rule.eventType == node.projection.eventType && rule.nodeType == node.projection.nodeType
  }

  predicate Filtered(config: Config, node: Node) {
    node.projection.eventType in config.eventTypes && node.projection.nodeType in config.nodeTypes
  }

  predicate ExactTime(t: TimeValue) { t.DateTime? && t.basis in {OfficialExplicit, DeterministicDerived} }

  /** The subscriber wants the node: shown by the filters, or needed by a chosen reminder at an exact time. */
  ghost predicate Wanted(config: Config, node: Node, now: int) {
    && node.game in config.games && node.region in config.regions
    && (Filtered(config, node)
        || (config.alarms && (exists r :: Reminds(config, r, node)) && ExactTime(ShownTime(node, now))))
  }

  /** It can be shown now: at a known time, and either a standing node from thirty days back to one hundred and
      eighty ahead, or under a live patch that reaches beyond that window. */
  predicate Showable(node: Node, now: int) {
    var t, today := ShownTime(node, now), now / DAY_MS;
    && !t.Unknown?
    && ((!node.tombstone && today - 30 <= TimeDay(t) <= today + 180)
        || (HasLivePatch(node, now) && node.patch.value.extendsWindow))
  }

  /** Exactly which nodes a feed shows, at which time, and which of them as cancelled. */
  lemma ShownExactly(config: Config, node: Node, now: int)
    ensures Project(config, node, now).Some? <==> Wanted(config, node, now) && Showable(node, now)
    ensures Project(config, node, now).Some? ==>
              var item := Project(config, node, now).value;
              && item.node == node && item.time == ShownTime(node, now) && item.cancelled == Cancelling(node, now)
              && item.patch == HasLivePatch(node, now)
              && item.base == (!node.tombstone
                   && now / DAY_MS - 30 <= TimeDay(item.time) <= now / DAY_MS + 180)
  {
    FeedWindowIsWholeDays(ShownTime(node, now), now);
    ReasonIs(config, node);
  }

  lemma ReasonIs(config: Config, node: Node)
    ensures ReasonFor(config, node).Some? <==>
              node.game in config.games && node.region in config.regions
              && (Filtered(config, node) || (config.alarms && exists r :: Reminds(config, r, node)))
    ensures ReasonFor(config, node).Some? ==> (ReasonFor(config, node).value.Base? <==> Filtered(config, node))
  {
    MatchingRulesAre(config, node, REMINDER_RULES);
    var rules := MatchingRules(config, node, REMINDER_RULES);
    if rules != [] { assert rules[0] in rules && Reminds(config, rules[0], node); }
    if r :| Reminds(config, r, node) { assert r in rules; }
  }

  /** An item's alarms are exactly the lead times of the chosen rules that fit it, and it has any only while it
      stands and its time is exact. */
  lemma AlarmsExactly(config: Config, node: Node, now: int, lead: int)
    requires Project(config, node, now).Some?
    ensures lead in Project(config, node, now).value.alarms <==>
              && config.alarms && !Cancelling(node, now) && ExactTime(ShownTime(node, now))
              && exists r :: Reminds(config, r, node) && r.lead == lead
  {
    MatchingRulesAre(config, node, REMINDER_RULES);
    var rules := MatchingRules(config, node, REMINDER_RULES);
    if r :| Reminds(config, r, node) && r.lead == lead { assert r in rules; }
    if r :| r in rules && r.lead == lead { assert Reminds(config, r, node); }
  }

  // ---------------------------------------------------------------- the whole feed

  /** The last of the given nodes with its milestone. */
  predicate Latest(nodes: seq<Node>, node: Node) {
    exists i :: 0 <= i < |nodes| && nodes[i] == node
      && forall j :: i < j < |nodes| ==> nodes[j].projection.milestone != node.projection.milestone
  }

  lemma PutIs(nodes: seq<Node>, last: Node, node: Node)
    requires DistinctMilestones(nodes)
    ensures node in Put(nodes, last) <==>
              node == last || (node in nodes && node.projection.milestone != last.projection.milestone)
  {
    var i := IndexOf(nodes, last.projection.milestone);
    if node in nodes {
      var k :| 0 <= k < |nodes| && nodes[k] == node;
      if k != i { assert Put(nodes, last)[k] == node; }
    }
    assert Put(nodes, last)[i] == last;
  }

  /** Of several nodes for one milestone the last one given counts. */
  lemma {:induction false} ByIdIsLatest(nodes: seq<Node>, node: Node)
    ensures node in ById(nodes) <==> Latest(nodes, node)
  {
    if nodes != [] {
      var k := |nodes| - 1;
      var before, last := nodes[..k], nodes[k];
      ByIdIsLatest(before, node);
      ByIdIsDistinct(before);
      PutIs(ById(before), last, node);
      LatestExtends(nodes, node);
    }
  }

  lemma LatestExtends(nodes: seq<Node>, node: Node)
    requires nodes != []
    ensures var k := |nodes| - 1;
            Latest(nodes, node) <==>
              node == nodes[k]
              || (Latest(nodes[..k], node) && node.projection.milestone != nodes[k].projection.milestone)
  {
    var k := |nodes| - 1;
    var before := nodes[..k];
    if Latest(nodes, node) {
      var i :| 0 <= i < |nodes| && nodes[i] == node
        && forall j :: i < j < |nodes| ==> nodes[j].projection.milestone != node.projection.milestone;
      if i < k { assert before[i] == node; }
    }
    if Latest(before, node) && node.projection.milestone != nodes[k].projection.milestone {
      var i :| 0 <= i < |before| && before[i] == node
        && forall j :: i < j < |before| ==> before[j].projection.milestone != node.projection.milestone;
      assert nodes[i] == node;
      forall j | i < j < |nodes| ensures nodes[j].projection.milestone != node.projection.milestone {
        if j < k { assert before[j] == nodes[j]; }
      }
    }
  }

  /** A milestone is in the feed exactly when its latest node is wanted and can be shown. */
  lemma FeedShows(config: Config, nodes: seq<Node>, now: int, node: Node)
    ensures (exists x :: x in PersonalNodes(config, nodes, now) && x.node == node) <==>
              Latest(nodes, node) && Wanted(config, node, now) && Showable(node, now)
  {
    FeedIsExact(config, nodes, now);
    ByIdIsLatest(nodes, node);
    ShownExactly(config, node, now);
    if Latest(nodes, node) && Project(config, node, now).Some? {
      assert Project(config, node, now).value in PersonalNodes(config, nodes, now);
    }
  }

  // ---------------------------------------------------------------- the natural exit is tight

  /** The end of the days around a known time in which a feed shows it. */
  predicate WindowEnd(t: TimeValue, end: int) { !t.Unknown? && end == (TimeDay(t) + 31) * DAY_MS }

  /** The saved exit is no later than it has to be: it is the moment of the output itself, or the end of the window of
      some item's shown or stored time, or the end of some item's patch. */
  lemma {:induction false} NaturalExitIsReached(items: seq<Item>, now: int)
    ensures NaturalExit(items, now) == now
            || exists x :: x in items && (|| WindowEnd(x.time, NaturalExit(items, now))
                                          || WindowEnd(x.node.projection.time, NaturalExit(items, now))
                                          || (x.node.patch.Some?
                                              && x.node.patch.value.retainUntil == NaturalExit(items, now)))
  {
    if items != [] {
      var k := |items| - 1;
      NaturalExitIsReached(items[..k], now);
      assert items == items[..k] + [items[k]];
      assert items[k] in items;
      ExitOfItem(items[k], now);
    }
  }

  lemma ExitOfItem(x: Item, now: int)
    ensures var e := ItemExit(x, now);
            || e == now || WindowEnd(x.time, e) || WindowEnd(x.node.projection.time, e)
            || (x.node.patch.Some? && x.node.patch.value.retainUntil == e)
  {
    if x.time.DateOnly? { assert x.time.day * DAY_MS / DAY_MS == x.time.day; }
    var t := x.node.projection.time;
    if t.DateOnly? { assert t.day * DAY_MS / DAY_MS == t.day; }
  }

  // ---------------------------------------------------------------- the shrink guard

  /** A calendar of five or more entries would lose more than two fifths of them under the same view. */
  predicate Shrinks(x: ShrinkInput) {
    && x.baseline.viewRevision == Some(x.viewRevision)
    && x.baseline.count.Some? && x.baseline.count.value >= 5
    && 5 * (x.baseline.count.value - |After(x)|) > 2 * x.baseline.count.value
  }

  /** The milestone is still listed, but reclassified at a higher revision and no longer wanted. */
  predicate ReclassifiedAway(x: ShrinkInput, item: Item) {
    exists c :: c in ById(x.current) && c.projection.milestone == item.node.projection.milestone
      && c.patch.Some? && c.patch.value.kind == ClassificationCorrected && c.revision > item.node.revision
      && Project(x.config, c, x.now).None?
  }

  /** The entry is still shown, has left by its own stored content, or was reclassified away. */
  predicate AccountedFor(x: ShrinkInput, item: Item) {
    || item.node.projection.milestone in Ids(After(x))
    || Project(x.config, item.node, x.now).None?
    || ReclassifiedAway(x, item)
  }

  /** The entries no evidence speaks about: all that could not be recomputed from the served generation; without it,
      what the drop exceeds the accounted entries by. */
  function Unaccounted(x: ShrinkInput, at: int): int
    requires x.baseline.count.Some?
  {
    var count, before := x.baseline.count.value, Before(x, at);
    if x.previous.Some? then count - |before|
    else
      var surplus := if |before| > count then |before| - count else 0;
      var gone := |Ids(before) - Ids(After(x))|;
      count - |After(x)| - (if gone > surplus then gone - surplus else 0)
  }

  /** The evidence: every recomputed entry accounted for, none too many, and the rest small or past the saved exit. */
  predicate Evident(x: ShrinkInput) {
    && x.baseline.count.Some? && x.baseline.servedAt.Some?
    && var at, count := x.baseline.servedAt.value, x.baseline.count.value;
       && (forall item :: item in Before(x, at) ==> AccountedFor(x, item))
       && (x.previous.Some? ==> |Before(x, at)| <= count)
       && (5 * Unaccounted(x, at) <= 2 * count
           || (x.baseline.naturalExit.Some? && at <= x.baseline.naturalExit.value <= x.now))
  }

  lemma AbsentCount(before: seq<Item>, after: seq<Item>)
    requires DistinctItems(before)
    ensures |Absent(before, after)| == |Ids(before) - Ids(after)|
  {
    KeptIds(before, after);
    DistinctCount(Absent(before, after));
  }

  lemma ExplainedIs(x: ShrinkInput, item: Item)
    ensures Explained(x, item) <==> Project(x.config, item.node, x.now).None? || ReclassifiedAway(x, item)
  {
    SingleProjects(x.config, item.node, x.now);
    forall c: Node ensures PersonalNodes(x.config, [c], x.now) == [] <==> Project(x.config, c, x.now).None? {
      SingleProjects(x.config, c, x.now);
    }
  }

  lemma JustifiedIs(x: ShrinkInput)
    ensures Justified(x) <==> Evident(x)
  {
    if x.baseline.servedAt.Some? && x.baseline.count.Some? {
      var at := x.baseline.servedAt.value;
      var before, after := Before(x, at), After(x);
      FeedIsExact(x.config, if x.previous.Some? then x.previous.value else Unchanged(x.current, x.baseline), at);
      AbsentCount(before, after);
      AbsentAre(before, after);
      forall item | item in before
        ensures AccountedFor(x, item) <==> item !in Absent(before, after) || Explained(x, item)
      {
        ShowsMembers(after, item.node.projection.milestone);
        ExplainedIs(x, item);
      }
    }
  }

  /** The guard stops a feed exactly when it would shrink that much and the evidence does not account for it. */
  lemma BlockedExactly(x: ShrinkInput)
    ensures Blocked(x) <==> Shrinks(x) && !Evident(x)
  {
    JustifiedIs(x);
  }

  /** One entry that would still be shown from its stored node and was not reclassified is enough to stop it. */
  lemma UnexplainedLossBlocks(x: ShrinkInput, item: Item)
    requires x.baseline.viewRevision == Some(x.viewRevision)
    requires x.baseline.count.Some? && x.baseline.count.value >= 5
    requires 5 * (x.baseline.count.value - |PersonalNodes(x.config, x.current, x.now)|) > 2 * x.baseline.count.value
    requires x.baseline.servedAt.Some? && x.previous.Some?
    requires item in PersonalNodes(x.config, x.previous.value, x.baseline.servedAt.value)
    requires forall y :: y in PersonalNodes(x.config, x.current, x.now) ==>
               y.node.projection.milestone != item.node.projection.milestone
    requires Wanted(x.config, item.node, x.now) && Showable(item.node, x.now)
    requires forall c :: c in x.current && c.projection.milestone == item.node.projection.milestone ==>
               !(c.patch.Some? && c.patch.value.kind == ClassificationCorrected && c.revision > item.node.revision)
    ensures Blocked(x)
  {
    ShownExactly(x.config, item.node, x.now);
    ByIdIsDistinct(x.current);
    ShowsMembers(After(x), item.node.projection.milestone);
    BlockedExactly(x);
    assert !AccountedFor(x, item);
  }

  /** Another view, a small calendar or a small drop is never stopped. */
  lemma SmallChangesPass(x: ShrinkInput)
    requires || x.baseline.viewRevision != Some(x.viewRevision)
             || x.baseline.count.None? || x.baseline.count.value < 5
             || 5 * (x.baseline.count.value - |PersonalNodes(x.config, x.current, x.now)|) <= 2 * x.baseline.count.value
    ensures !Blocked(x)
  {
  }

  /** Without the served generation, a current node counts as evidence exactly when its content is as old as that
      generation, or, where no generation is recorded, its last public change as old as that output. */
  lemma {:induction false} UnchangedAre(nodes: seq<Node>, b: Baseline, node: Node)
    ensures node in Unchanged(nodes, b) <==>
              node in nodes
              && if node.contentGeneration.Some?
                 then b.generation.Some? && node.contentGeneration.value <= b.generation.value
                 else node.changedAt.Some? && b.servedAt.Some? && node.changedAt.value <= b.servedAt.value
  {
    if nodes != [] {
      var k := |nodes| - 1;
      UnchangedAre(nodes[..k], b, node);
      assert nodes == nodes[..k] + [nodes[k]];
    }
  }
}
