/** Which milestones a personal calendar contains: the ones its filters show, and the ones its
    chosen reminders need even where a filter hides them. */
module CalendarNodes {
  import opened Wrappers
  import opened Time
  import opened Changes

  datatype PatchKind =
    | Rescheduled | CancelledPatch | RetractedPatch | Deleted | Restored | PostponedUnknown
    | ClassificationCorrected

  datatype Patch = Patch(
    kind: PatchKind, extendsWindow: bool, displayTime: TimeValue, oldTime: Option<TimeValue>,
    newTime: Option<TimeValue>, retainUntil: int)

  datatype Projection = Projection(
    event: string, milestone: string, eventType: EventType, status: EventStatus, nodeType: NodeType, time: TimeValue)

  /** One complete template of a public generation. */
  datatype Node = Node(
    game: string, region: string, projection: Projection, revision: nat, patch: Option<Patch>, tombstone: bool,
    contentGeneration: Option<int>, changedAt: Option<int>)

  datatype Config = Config(
    games: set<string>, regions: set<string>, eventTypes: set<EventType>, nodeTypes: set<NodeType>,
    alarms: bool, rules: set<string>)

  datatype Rule = Rule(id: string, eventType: EventType, nodeType: NodeType, lead: int)

  const REMINDER_RULES: seq<Rule> := [
    Rule("livestream_start_1h", Livestream, Start, 3600),
    Rule("maintenance_start_1h", Maintenance, Start, 3600),
    Rule("limited_start_1h", LimitedEvent, Start, 3600),
    Rule("limited_end_1d", LimitedEvent, End, 86400),
    Rule("gacha_start_1h", Gacha, Start, 3600),
    Rule("gacha_end_1d", Gacha, End, 86400),
    Rule("phase_unlock_1h", LimitedEvent, PhaseUnlock, 3600),
    Rule("reward_deadline_1d", LimitedEvent, RewardDeadline, 86400)]

  datatype Reason = Base | ReminderAssociated(rules: seq<string>)

  datatype Effective = Effective(node: Node, reason: Reason)

  predicate InScope(config: Config, node: Node) { node.game in config.games && node.region in config.regions }

  predicate BaseVisible(config: Config, node: Node) {
    node.projection.eventType in config.eventTypes && node.projection.nodeType in config.nodeTypes
  }

  predicate Selects(config: Config, rule: Rule, node: Node) {
    rule.id in config.rules && rule.eventType == node.projection.eventType && rule.nodeType == node.projection.nodeType
  }

  function MatchingRules(config: Config, node: Node, rules: seq<Rule>): seq<Rule> {
    if rules == [] then []
    else
      MatchingRules(config, node, rules[..|rules| - 1])
      + if Selects(config, rules[|rules| - 1], node) then [rules[|rules| - 1]] else []
  }

  function RuleIds(rules: seq<Rule>): (ids: seq<string>)
    ensures |ids| == |rules| && forall i :: 0 <= i < |rules| ==> ids[i] == rules[i].id
  {
    seq(|rules|, i requires 0 <= i < |rules| => rules[i].id)
  }

  /** Why a node is in the calendar, if it is. */
  function ReasonFor(config: Config, node: Node): Option<Reason> {
    if !InScope(config, node) then None
    else if BaseVisible(config, node) then Some(Base)
    else if config.alarms && MatchingRules(config, node, REMINDER_RULES) != []
    then Some(ReminderAssociated(RuleIds(MatchingRules(config, node, REMINDER_RULES))))
    else None
  }

  function EffectiveNodes(config: Config, candidates: seq<Node>): seq<Effective> {
    if candidates == [] then []
    else
      var last := candidates[|candidates| - 1];
      EffectiveNodes(config, candidates[..|candidates| - 1])
      + if ReasonFor(config, last).Some? then [Effective(last, ReasonFor(config, last).value)] else []
  }

  method EffectiveCalendarNodes(config: Config, candidates: seq<Node>) returns (result: seq<Effective>)
    ensures result == EffectiveNodes(config, candidates)
  {
    result := [];
    for i := 0 to |candidates|
      invariant result == EffectiveNodes(config, candidates[..i])
    {
      assert candidates[..i+1][..i] == candidates[..i];
      var node := candidates[i];
      if !InScope(config, node) { continue; }
      if BaseVisible(config, node) {
        result := result + [Effective(node, Base)];
        continue;
      }
      if config.alarms {
        var rules := RuleIds(MatchingRules(config, node, REMINDER_RULES));
        if |rules| > 0 { result := result + [Effective(node, ReminderAssociated(rules))]; }
      }
    }
    assert candidates[..|candidates|] == candidates;
  }

  lemma {:induction false} MatchingRulesAre(config: Config, node: Node, rules: seq<Rule>)
    ensures forall r :: r in MatchingRules(config, node, rules) <==> r in rules && Selects(config, r, node)
  {
    if rules != [] {
      MatchingRulesAre(config, node, rules[..|rules| - 1]);
      assert rules == rules[..|rules| - 1] + [rules[|rules| - 1]];
    }
  }

  lemma {:induction false} EffectiveNodesAre(config: Config, candidates: seq<Node>)
    ensures forall e :: e in EffectiveNodes(config, candidates) <==>
              e.node in candidates && ReasonFor(config, e.node) == Some(e.reason)
  {
    if candidates != [] {
      EffectiveNodesAre(config, candidates[..|candidates| - 1]);
      assert candidates == candidates[..|candidates| - 1] + [candidates[|candidates| - 1]];
    }
  }

  /** The calendar is the in-scope nodes that are base visible or, with alarms on, needed by a chosen
      rule; reminders are not intersected with the display filters, and a base-visible node is never
      labelled as added by a reminder. */
  lemma EffectiveIffVisibleOrNeeded(config: Config, candidates: seq<Node>, node: Node)
    requires node in candidates
    ensures var needed := exists r :: r in REMINDER_RULES && Selects(config, r, node);
            (exists e :: e in EffectiveNodes(config, candidates) && e.node == node)
            <==> (InScope(config, node) && (BaseVisible(config, node) || (config.alarms && needed)))
    ensures forall e :: e in EffectiveNodes(config, candidates) && e.node == node && e.reason.ReminderAssociated? ==>
              !BaseVisible(config, node) && forall r :: r in REMINDER_RULES ==>
                  (r.id in e.reason.rules <==> Selects(config, r, node))
  {
    EffectiveNodesAre(config, candidates);
    MatchingRulesAre(config, node, REMINDER_RULES);
    var matching := MatchingRules(config, node, REMINDER_RULES);
    if ReasonFor(config, node).Some? {
      assert Effective(node, ReasonFor(config, node).value) in EffectiveNodes(config, candidates);
    }
    if matching != [] {
      assert matching[0] in matching;
    } else {
      forall r | r in REMINDER_RULES ensures !Selects(config, r, node) { assert r !in matching; }
    }
    forall r | r in REMINDER_RULES ensures r.id in RuleIds(matching) <==> Selects(config, r, node) {
      if r.id in RuleIds(matching) {
        var i :| 0 <= i < |matching| && matching[i].id == r.id;
        RuleIdsDiffer(matching[i], r);
      }
      if Selects(config, r, node) {
        var i :| 0 <= i < |matching| && matching[i] == r;
        assert RuleIds(matching)[i] == r.id;
      }
    }
  }

  lemma RuleIdsDiffer(a: Rule, b: Rule)
    requires a in REMINDER_RULES && b in REMINDER_RULES && a.id == b.id
    ensures a == b
  {
    forall i, j | 0 <= i < j < |REMINDER_RULES| ensures REMINDER_RULES[i].id != REMINDER_RULES[j].id {
      RuleTable(i, j);
    }
  }

  lemma RuleTable(i: nat, j: nat)
    requires i < j < |REMINDER_RULES|
    ensures REMINDER_RULES[i].id != REMINDER_RULES[j].id
  {
    var lengths := [19, 20, 16, 14, 14, 12, 15, 18];
    assert |REMINDER_RULES[i].id| == lengths[i] && |REMINDER_RULES[j].id| == lengths[j];
    if i == 3 && j == 4 { assert REMINDER_RULES[3].id[0] == 'l' && REMINDER_RULES[4].id[0] == 'g'; }
  }

  // ---------------------------------------------------------------- one node per milestone

  /** A Map built from the list in order: a repeated milestone keeps its place and takes the later node. */
  function ById(nodes: seq<Node>): seq<Node> {
    if nodes == [] then []
    else Put(ById(nodes[..|nodes| - 1]), nodes[|nodes| - 1])
  }

  function IndexOf(nodes: seq<Node>, milestone: string): (i: nat)
    ensures i <= |nodes|
    ensures i < |nodes| ==> nodes[i].projection.milestone == milestone
    ensures forall j :: 0 <= j < i ==> nodes[j].projection.milestone != milestone
  {
    if nodes == [] then 0
    else if nodes[0].projection.milestone == milestone then 0
    else 1 + IndexOf(nodes[1..], milestone)
  }

  function Put(nodes: seq<Node>, node: Node): seq<Node> {
    var i := IndexOf(nodes, node.projection.milestone);
    if i < |nodes| then nodes[i := node] else nodes + [node]
  }

  predicate DistinctMilestones(nodes: seq<Node>) {
    forall i, j :: 0 <= i < j < |nodes| ==> nodes[i].projection.milestone != nodes[j].projection.milestone
  }

  lemma {:induction false} ByIdIsDistinct(nodes: seq<Node>)
    ensures DistinctMilestones(ById(nodes))
    ensures forall n :: n in ById(nodes) ==> n in nodes
  {
    if nodes != [] {
      var before := nodes[..|nodes| - 1];
      ByIdIsDistinct(before);
      PutKeepsDistinct(ById(before), nodes[|nodes| - 1]);
      assert nodes == before + [nodes[|nodes| - 1]];
    }
  }

  lemma PutKeepsDistinct(nodes: seq<Node>, node: Node)
    requires DistinctMilestones(nodes)
    ensures DistinctMilestones(Put(nodes, node))
    ensures forall n :: n in Put(nodes, node) ==> n in nodes || n == node
  {
  }

  /** When no milestone repeats, the list is its own index. */
  lemma {:induction false} ByIdKeepsDistinct(nodes: seq<Node>)
    requires DistinctMilestones(nodes)
    ensures ById(nodes) == nodes
  {
    if nodes != [] {
      var k := |nodes| - 1;
      ByIdKeepsDistinct(nodes[..k]);
      assert IndexOf(nodes[..k], nodes[k].projection.milestone) == k;
      assert nodes == nodes[..k] + [nodes[k]];
    }
  }

  method IndexById(nodes: seq<Node>) returns (unique: seq<Node>)
    ensures unique == ById(nodes)
  {
    unique := [];
    for i := 0 to |nodes|
      invariant unique == ById(nodes[..i])
    {
      assert nodes[..i+1][..i] == nodes[..i];
      var k := IndexOf(unique, nodes[i].projection.milestone);
      unique := if k < |unique| then unique[k := nodes[i]] else unique + [nodes[i]];
    }
    assert nodes[..|nodes|] == nodes;
  }
}
