/** Which of the three version counters a publication moves. */
module Changes {
  import opened Wrappers
  import opened Time

  datatype EventType = Livestream | Maintenance | LimitedEvent | Gacha | RedeemCode
  datatype NodeType = Start | End | PhaseUnlock | RewardDeadline | ExpectedEnd | ActualEnd
  datatype EventStatus = Scheduled | Postponed | Cancelled | Retracted

  datatype EventFacts = EventFacts(
    eventType: EventType, status: EventStatus, title: string,
    summary: Option<string>, url: Option<string>, locked: bool)

  datatype NodeFacts = NodeFacts(key: string, nodeType: NodeType, title: string, time: TimeValue, locked: bool)

  datatype NodeChange = NodeChange(changed: bool, scheduleChanged: bool, publicChanged: bool)

  datatype EventChange = EventChange(eventRevision: bool, scheduleRevision: bool, nodes: map<string, NodeChange>)

  predicate CanUseExactAlarm(status: EventStatus, time: TimeValue) {
    status != Cancelled && status != Retracted && ExactAlarmTime(time)
  }

  /** An alarm may be set for a standing event at an instant that was stated or derived, and for nothing else. */
  lemma AlarmEligibleIs(status: EventStatus, time: TimeValue)
    ensures CanUseExactAlarm(status, time) <==>
              && status in {Scheduled, Postponed} && time.DateTime?
              && time.basis in {OfficialExplicit, DeterministicDerived}
  {
  }

  /** Everything about an event that subscribers can see; the lock is internal. */
  predicate EventPublicChanged(before: Option<EventFacts>, after: EventFacts) {
    before.None? || before.value.(locked := after.locked) != after
  }

  /** Later nodes win, as when a Map is built from a list of pairs. */
  function ByKey(nodes: seq<NodeFacts>): map<string, NodeFacts> {
    if nodes == [] then map[]
    else ByKey(nodes[..|nodes| - 1])[nodes[|nodes| - 1].key := nodes[|nodes| - 1]]
  }

  function Lookup(prior: map<string, NodeFacts>, key: string): Option<NodeFacts> {
    if key in prior then Some(prior[key]) else None
  }

  function ClassifyNode(
      before: Option<EventFacts>, after: EventFacts, prior: Option<NodeFacts>, next: NodeFacts): NodeChange {
    NodeChange(
      prior.None? || prior.value.(key := next.key) != next,
      prior.None? || before.None?
      || !SameClock(prior.value.time, next.time)
      || prior.value.nodeType != next.nodeType
      || before.value.eventType != after.eventType
      || CanUseExactAlarm(before.value.status, prior.value.time) != CanUseExactAlarm(after.status, next.time),
      prior.None? || EventPublicChanged(before, after)
      || prior.value.nodeType != next.nodeType || prior.value.title != next.title || prior.value.time != next.time)
  }

  function NodeChanges(
      before: Option<EventFacts>, after: EventFacts, prior: map<string, NodeFacts>, next: seq<NodeFacts>)
    : map<string, NodeChange>
  {
    if next == [] then map[]
    else
      var n := next[|next| - 1];
      var earlier := NodeChanges(before, after, prior, next[..|next| - 1]);
      earlier[n.key := ClassifyNode(before, after, Lookup(prior, n.key), n)]
  }

  predicate LockChanged(before: Option<EventFacts>, after: EventFacts) {
    before.Some? && before.value.locked != after.locked
  }

  function Classify(
      before: Option<EventFacts>, after: EventFacts, previous: seq<NodeFacts>, next: seq<NodeFacts>): EventChange {
    var prior := ByKey(previous);
    EventChange(
      EventPublicChanged(before, after) || LockChanged(before, after) || AnyNodeChanged(before, after, prior, next),
      before.None? || AnyRescheduled(before, after, prior, next),
      NodeChanges(before, after, prior, next))
  }

  predicate AnyNodeChanged(
      before: Option<EventFacts>, after: EventFacts, prior: map<string, NodeFacts>, next: seq<NodeFacts>) {
    exists i :: 0 <= i < |next| && ClassifyNode(before, after, Lookup(prior, next[i].key), next[i]).changed
  }

  predicate AnyRescheduled(
      before: Option<EventFacts>, after: EventFacts, prior: map<string, NodeFacts>, next: seq<NodeFacts>) {
    exists i :: 0 <= i < |next| && ClassifyNode(before, after, Lookup(prior, next[i].key), next[i]).scheduleChanged
  }

  method IndexByKey(previous: seq<NodeFacts>) returns (prior: map<string, NodeFacts>)
    ensures prior == ByKey(previous)
  {
    prior := map[];
    for i := 0 to |previous|
      invariant prior == ByKey(previous[..i])
    {
      assert previous[..i+1][..i] == previous[..i];
      prior := prior[previous[i].key := previous[i]];
    }
    assert previous[..|previous|] == previous;
  }

  lemma OneMoreNode(
      before: Option<EventFacts>, after: EventFacts, prior: map<string, NodeFacts>, next: seq<NodeFacts>, i: nat)
    requires i < |next|
    ensures var c := ClassifyNode(before, after, Lookup(prior, next[i].key), next[i]);
            && NodeChanges(before, after, prior, next[..i+1]) ==
                NodeChanges(before, after, prior, next[..i])[next[i].key := c]
            && AnyNodeChanged(before, after, prior, next[..i+1]) ==
                (AnyNodeChanged(before, after, prior, next[..i]) || c.changed)
            && AnyRescheduled(before, after, prior, next[..i+1])
                 == (AnyRescheduled(before, after, prior, next[..i]) || c.scheduleChanged)
  {
    var more, less := next[..i+1], next[..i];
    assert more[..i] == less && more[i] == next[i];
    assert forall j :: 0 <= j < i ==> more[j] == less[j];
  }

  method ClassifyPublicationChange(
      before: Option<EventFacts>, after: EventFacts, previous: seq<NodeFacts>, next: seq<NodeFacts>)
    returns (change: EventChange)
    ensures change == Classify(before, after, previous, next)
  {
    var prior := IndexByKey(previous);
    var nodes: map<string, NodeChange> := map[];
    var anyNodeChanged := false;
    var scheduleChanged := before.None?;
    for i := 0 to |next|
      invariant nodes == NodeChanges(before, after, prior, next[..i])
      invariant anyNodeChanged == AnyNodeChanged(before, after, prior, next[..i])
      invariant scheduleChanged == (before.None? || AnyRescheduled(before, after, prior, next[..i]))
    {
      OneMoreNode(before, after, prior, next, i);
      var c := ClassifyNode(before, after, Lookup(prior, next[i].key), next[i]);
      nodes := nodes[next[i].key := c];
      anyNodeChanged := anyNodeChanged || c.changed;
      scheduleChanged := scheduleChanged || c.scheduleChanged;
    }
    assert next[..|next|] == next;
    change := EventChange(EventPublicChanged(before, after) || LockChanged(before, after) || anyNodeChanged,
                          scheduleChanged, nodes);
  }

  predicate UniqueKeys(nodes: seq<NodeFacts>) {
    forall i, j :: 0 <= i < j < |nodes| ==> nodes[i].key != nodes[j].key
  }

  lemma {:induction false} ByKeyFinds(nodes: seq<NodeFacts>, key: string)
    requires UniqueKeys(nodes)
    ensures key in ByKey(nodes) <==> exists i :: 0 <= i < |nodes| && nodes[i].key == key
    ensures forall i :: 0 <= i < |nodes| && nodes[i].key == key ==> ByKey(nodes)[key] == nodes[i]
  {
    if nodes != [] {
      ByKeyFinds(nodes[..|nodes| - 1], key);
    }
  }

  lemma {:induction false} NodeChangesAt(
      before: Option<EventFacts>, after: EventFacts, prior: map<string, NodeFacts>, next: seq<NodeFacts>, i: nat)
    requires UniqueKeys(next) && i < |next|
    ensures next[i].key in NodeChanges(before, after, prior, next)
    ensures NodeChanges(before, after, prior, next)[next[i].key] ==
        ClassifyNode(before, after, Lookup(prior, next[i].key), next[i])
  {
    if i < |next| - 1 {
      NodeChangesAt(before, after, prior, next[..|next| - 1], i);
    }
  }
}
