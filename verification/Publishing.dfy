/** Publishing an approved candidate: read, plan, then one guarded commit. */
module Publishing {
  import opened Wrappers
  import opened Time
  import opened Changes
  import opened FactStore
  import Cas

  // ---------------------------------------------------------------- what a candidate proposes

  datatype MilestoneProposal = MilestoneProposal(
    key: string, nodeType: NodeType, title: string, time: TimeValue, ref: string)

  datatype EventProposal = EventProposal(
    eventKey: string, eventType: EventType, status: EventStatus, title: string, summary: Option<string>,
    typeRef: string, statusRef: Option<string>, relation: Option<string>, milestones: seq<MilestoneProposal>)

  datatype Proposal = NoEvents | Uncertain | Events(events: seq<EventProposal>)

  type Store = Db<Proposal>

  datatype Manual = Manual(reason: string, target: Option<string>, retract: bool)

  /** The stored article version the candidate's evidence points at. */
  datatype Article = Article(
    id: string, version: string, number: int, source: string, external: string,
    game: string, region: string, url: Option<string>, complete: bool)

  /** `SELECT ... FROM milestones WHERE event_id = ?` */
  datatype StoredNode = StoredNode(key: string, cell: Cell)

  /** One event as loaded: its row, its milestones, and whether this article version already reached it. */
  datatype Reading = Reading(event: Option<Cell>, nodes: seq<StoredNode>, associated: bool)

  /** One call of the publisher with everything it read before committing. */
  datatype Attempt = Attempt(
    candidateId: string, candidate: Candidate<Proposal>, article: Article, manual: Option<Manual>,
    linked: bool, newer: bool, readings: seq<Reading>, pending: Option<int>, now: int, expectedUpdatedAt: Option<int>)

  datatype PlannedNode = PlannedNode(prior: Option<Cell>, facts: NodeFacts, ref: Option<string>)

  datatype PlannedEvent = PlannedEvent(
    id: string, prior: Option<Cell>, facts: EventFacts, nodes: seq<PlannedNode>, change: EventChange,
    actor: Actor, association: bool, reason: Option<string>, typeRef: string, statusRef: Option<string>)

  datatype Decision =
    | Refused                       // the call throws
    | Unchanged | Stale | Locked | Missed
    | Ready(planned: seq<PlannedEvent>)

  // ---------------------------------------------------------------- planning

  /** Stands for the hash that names an event by its article and its key inside the article. */
  function EventIdentity(article: Article, eventKey: string): string {
    article.source + "\n" + article.external + "\n" + eventKey
  }

  function TargetOf(a: Attempt, item: EventProposal): string {
    if a.manual.Some? && a.manual.value.target.Some? then a.manual.value.target.value
    else if item.relation.Some? then item.relation.value
    else EventIdentity(a.article, item.eventKey)
  }

  predicate NodesReadable(nodes: seq<StoredNode>) {
    forall i :: 0 <= i < |nodes| ==> nodes[i].cell.NodeCell? && Readable(nodes[i].cell.time)
  }

  function FactsOf(n: StoredNode): NodeFacts
    requires n.cell.NodeCell? && Readable(n.cell.time)
  {
    NodeFacts(n.key, n.cell.nodeType, n.cell.title, FromColumns(n.cell.time), n.cell.locked)
  }

  function AllFacts(nodes: seq<StoredNode>): (fs: seq<NodeFacts>)
    requires NodesReadable(nodes)
    ensures |fs| == |nodes| && forall i :: 0 <= i < |nodes| ==> fs[i] == FactsOf(nodes[i])
  {
    seq(|nodes|, i requires 0 <= i < |nodes| => FactsOf(nodes[i]))
  }

  function FindNode(nodes: seq<StoredNode>, key: string): (c: Option<Cell>)
    ensures c.Some? ==> exists i :: 0 <= i < |nodes| && nodes[i] == StoredNode(key, c.value)
    ensures c.None? ==> forall i :: 0 <= i < |nodes| ==> nodes[i].key != key
  {
    if nodes == [] then None
    else if nodes[|nodes| - 1].key == key then
      (assert nodes[|nodes| - 1] == StoredNode(key, nodes[|nodes| - 1].cell); Some(nodes[|nodes| - 1].cell))
    else FindNode(nodes[..|nodes| - 1], key)
  }

  predicate WasLocked(prior: Option<Cell>) {
    prior.Some? && match prior.value
                   case EventCell(_, _, facts, _, _) => facts.locked
                   case NodeCell(_, _, _, _, locked) => locked
                   case _ => false
  }

  predicate ByHand(a: Attempt) { a.manual.Some? || a.candidate.run.None? }

  function ProposedNode(a: Attempt, m: MilestoneProposal, stored: seq<StoredNode>): PlannedNode {
    var prior := FindNode(stored, m.key);
    PlannedNode(prior, NodeFacts(m.key, m.nodeType, m.title, m.time, ByHand(a) || WasLocked(prior)), Some(m.ref))
  }

  function ProposedNodes(a: Attempt, ms: seq<MilestoneProposal>, stored: seq<StoredNode>): (ns: seq<PlannedNode>)
    ensures |ns| == |ms| && forall i :: 0 <= i < |ms| ==> ns[i] == ProposedNode(a, ms[i], stored)
  {
    seq(|ms|, i requires 0 <= i < |ms| => ProposedNode(a, ms[i], stored))
  }

  predicate Mentioned(ms: seq<MilestoneProposal>, key: string) {
    exists i :: 0 <= i < |ms| && ms[i].key == key
  }

  /** Stored nodes the candidate does not mention are kept: an omission is not a cancellation. */
  function RetainedNodes(ms: seq<MilestoneProposal>, stored: seq<StoredNode>): seq<PlannedNode>
    requires NodesReadable(stored)
  {
    if stored == [] then []
    else
      var last := stored[|stored| - 1];
      RetainedNodes(ms, stored[..|stored| - 1])
      + if Mentioned(ms, last.key) then [] else [PlannedNode(Some(last.cell), FactsOf(last), None)]
  }

  function PlanNodes(a: Attempt, ms: seq<MilestoneProposal>, stored: seq<StoredNode>): seq<PlannedNode>
    requires NodesReadable(stored)
  {
    ProposedNodes(a, ms, stored) + RetainedNodes(ms, stored)
  }

  function NextFacts(ns: seq<PlannedNode>): (fs: seq<NodeFacts>)
    ensures |fs| == |ns| && forall i :: 0 <= i < |ns| ==> fs[i] == ns[i].facts
  {
    seq(|ns|, i requires 0 <= i < |ns| => ns[i].facts)
  }

  function EventFactsOf(c: Option<Cell>): Option<EventFacts> {
    if c.Some? && c.value.EventCell? then Some(c.value.facts) else None
  }

  function PlanEvent(a: Attempt, item: EventProposal, r: Reading): PlannedEvent
    requires NodesReadable(r.nodes)
  {
    var nodes := PlanNodes(a, item.milestones, r.nodes);
    var facts := EventFacts(item.eventType, item.status, item.title, item.summary, a.article.url,
                            ByHand(a) || WasLocked(r.event));
    PlannedEvent(
      TargetOf(a, item), r.event, facts, nodes,
      Classify(EventFactsOf(r.event), facts, AllFacts(r.nodes), NextFacts(nodes)),
      if a.candidate.run.None? || a.candidate.run.value.extractor.None?
          then ManualActor else a.candidate.run.value.extractor.value,
      a.manual.Some? && a.manual.value.target.Some?,
      if a.manual.Some? then Some(a.manual.value.reason) else None,
      item.typeRef, item.statusRef)
  }

  predicate AnyNodeLocked(nodes: seq<PlannedNode>) {
    exists i :: 0 <= i < |nodes| && WasLocked(nodes[i].prior)
  }

  /** What the loop does with one proposed event; Ready carries the single planned event. */
  function PlanOne(a: Attempt, item: EventProposal, r: Reading): Decision {
    if item.relation.Some? && a.manual.None? then Refused
    else if a.manual.Some? && a.manual.value.target.Some? && item.relation.Some?
            && item.relation.value != a.manual.value.target.value then Refused
    else if a.candidate.run.Some? && r.event.Some? && r.associated then Unchanged
    else if a.manual.Some? && a.manual.value.target.Some? && r.event.None? then Refused
    else if r.event.Some? && (!r.event.value.EventCell? || r.event.value.game != a.article.game
                              || r.event.value.region != a.article.region) then Refused
    else if !NodesReadable(r.nodes) then Refused
    else
      var p := PlanEvent(a, item, r);
      if (WasLocked(r.event) || AnyNodeLocked(p.nodes)) && a.manual.None? then Locked else Ready([p])
  }

  function ItemDecisions(a: Attempt, items: seq<EventProposal>, readings: seq<Reading>): (ds: seq<Decision>)
    requires |items| == |readings|
    ensures |ds| == |items| && forall i :: 0 <= i < |items| ==> ds[i] == PlanOne(a, items[i], readings[i])
  {
    seq(|items|, i requires 0 <= i < |items| => PlanOne(a, items[i], readings[i]))
  }

  /** The first item that stops the call decides it; otherwise the plans are put together in order. */
  function Together(ds: seq<Decision>): Decision {
    if ds == [] then Ready([])
    else
      var before, last := Together(ds[..|ds| - 1]), ds[|ds| - 1];
      if !before.Ready? then before
      else if !last.Ready? then last
      else Ready(before.planned + last.planned)
  }

  function PlanItems(a: Attempt, items: seq<EventProposal>, readings: seq<Reading>): Decision
    requires |items| == |readings|
  {
    Together(ItemDecisions(a, items, readings))
  }

  predicate Changed(p: PlannedEvent) { p.change.eventRevision || p.association }

  /** The schema accepted at parse time: events with at least one milestone, no repeated keys. */
  predicate ValidProposal(items: seq<EventProposal>) {
    && |items| > 0
    && (forall i, j :: 0 <= i < j < |items| ==> items[i].eventKey != items[j].eventKey)
    && (forall i :: 0 <= i < |items| ==> |items[i].milestones| > 0 && UniqueMilestones(items[i].milestones))
  }

  predicate UniqueMilestones(ms: seq<MilestoneProposal>) {
    forall i, j :: 0 <= i < j < |ms| ==> ms[i].key != ms[j].key
  }

  predicate DistinctIds(planned: seq<PlannedEvent>) {
    forall i, j :: 0 <= i < j < |planned| ==> planned[i].id != planned[j].id
  }

  predicate AnyChanged(planned: seq<PlannedEvent>) {
    exists i :: 0 <= i < |planned| && Changed(planned[i])
  }

  /** Everything before the commit, in the order the code checks it. */
  function Decide(a: Attempt): Decision {
    if a.expectedUpdatedAt.Some? && a.candidate.updatedAt != a.expectedUpdatedAt.value then Missed
    else if !a.candidate.approved then Refused
    else if a.linked then Unchanged
    else if a.candidate.run.Some? && (!a.candidate.run.value.succeeded
            || a.candidate.run.value.articleVersion != a.article.version
            || a.candidate.run.value.extractor !in {Some(RuleActor), Some(ModelActor)}) then Refused
    else if a.manual.Some? && a.candidate.run.Some? then Refused
    else if !a.article.complete || a.candidate.proposal.Uncertain? then Refused
    else if a.candidate.proposal.NoEvents? then Unchanged
    else
      var items := a.candidate.proposal.events;
      if !ValidProposal(items) || |items| != |a.readings| then Refused
      else if (exists i :: 0 <= i < |items| && items[i].status == Retracted)
          && !(a.manual.Some? && a.manual.value.retract) then Refused
      else if (exists i :: 0 <= i < |items| && items[i].status != Retracted)
          && a.manual.Some? && a.manual.value.retract then Refused
      else if a.manual.Some? && a.manual.value.target.Some? && |items| != 1 then Refused
      else if a.newer then Stale
      else
        var d := PlanItems(a, items, a.readings);
        if !d.Ready? then d
        else if !DistinctIds(d.planned) then Refused
        else if !AnyChanged(d.planned) then Unchanged
        else d
  }

  // ---------------------------------------------------------------- the chained writes

  function Revision(p: PlannedEvent): nat {
    (if p.prior.Some? && p.prior.value.EventCell? then p.prior.value.eventRevision else 0) + 1
  }

  function ScheduleRevision(p: PlannedEvent): nat {
    (if p.prior.Some? && p.prior.value.EventCell? then p.prior.value.scheduleRevision else 0)
    + (if p.change.scheduleRevision then 1 else 0)
  }

  function KindOf(p: PlannedEvent): ChangeKind {
    if p.prior.None? then Created
    else if p.association then Associated
    else if p.facts.status == Retracted then RetractedKind
    else if p.actor == ManualActor then ManualCorrected
    else if p.prior.value.EventCell? && p.prior.value.facts.status != p.facts.status then StatusUpdated
    else if p.change.scheduleRevision then ScheduleUpdated
    else ContentUpdated
  }

  function EventWrite(a: Attempt, p: PlannedEvent): Write {
    var cell := EventCell(a.article.game, a.article.region, p.facts, Revision(p), ScheduleRevision(p));
    if p.prior.None? then Add(EventKey(p.id), cell) else Modify(EventKey(p.id), Version(p.prior.value), cell)
  }

  function ChangeOf(p: PlannedEvent, n: PlannedNode): NodeChange {
    if n.facts.key in p.change.nodes then p.change.nodes[n.facts.key] else NodeChange(false, false, false)
  }

  function PriorRevision(n: PlannedNode): nat {
    if n.prior.Some? && n.prior.value.NodeCell? then n.prior.value.publicRevision else 0
  }

  function IdOf(p: PlannedEvent, n: PlannedNode): NodeId { NodeId(p.id, n.facts.key) }

  function NodeCellOf(p: PlannedEvent, n: PlannedNode): Cell {
    NodeCell(n.facts.nodeType, n.facts.title, ToColumns(n.facts.time),
             PriorRevision(n) + (if ChangeOf(p, n).publicChanged then 1 else 0), n.facts.locked)
  }

  function NodeWrite(p: PlannedEvent, n: PlannedNode): seq<Write> {
    if n.prior.None? then [Add(NodeKey(IdOf(p, n)), NodeCellOf(p, n))]
    else if ChangeOf(p, n).changed || ChangeOf(p, n).publicChanged
    then [Modify(NodeKey(IdOf(p, n)), PriorRevision(n), NodeCellOf(p, n))]
    else []
  }

  function ProjectionWrite(p: PlannedEvent, n: PlannedNode): seq<Write> {
    var cell := ProjectionCell(p.id, PriorRevision(n) + 1, p.facts, n.facts);
    if !ChangeOf(p, n).publicChanged then []
    else if n.prior.None? then [Add(ProjectionKey(IdOf(p, n)), cell)]
    else [Modify(ProjectionKey(IdOf(p, n)), PriorRevision(n), cell)]
  }

  function NodeWrites(p: PlannedEvent, ns: seq<PlannedNode>): seq<Write> {
    if ns == [] then [] else NodeWrites(p, ns[..|ns| - 1]) + NodeWrite(p, ns[|ns| - 1])
  }

  function ProjectionWrites(p: PlannedEvent, ns: seq<PlannedNode>): seq<Write> {
    if ns == [] then [] else ProjectionWrites(p, ns[..|ns| - 1]) + ProjectionWrite(p, ns[|ns| - 1])
  }

  function NodeEvidence(a: Attempt, p: PlannedEvent, ns: seq<PlannedNode>): seq<Write> {
    if ns == [] then []
    else
      var n := ns[|ns| - 1];
      NodeEvidence(a, p, ns[..|ns| - 1])
      + if n.ref.None? then []
        else [AddEvidence(Evidence(a.candidateId, Some(p.id), Some(IdOf(p, n)), a.article.version, n.ref.value))]
  }

  function EventEvidence(a: Attempt, p: PlannedEvent): seq<Write> {
    [AddEvidence(Evidence(a.candidateId, Some(p.id), None, a.article.version, p.typeRef))]
    + if p.statusRef.None? then []
      else [AddEvidence(Evidence(a.candidateId, Some(p.id), None, a.article.version, p.statusRef.value))]
  }

  function ChangedNodes(p: PlannedEvent, ns: seq<PlannedNode>): seq<NodeId> {
    if ns == [] then []
    else
      var n := ns[|ns| - 1];
      ChangedNodes(p, ns[..|ns| - 1]) + if ChangeOf(p, n).scheduleChanged then [IdOf(p, n)] else []
  }

  function Records(p: PlannedEvent): seq<Write> {
    [Add(RevisionKey(p.id, Revision(p)), RevisionCell(KindOf(p), p.actor, p.reason)),
     Add(OutboxKey(Notice(p.id, Revision(p))), OutboxCell(ScheduleRevision(p), ChangedNodes(p, p.nodes)))]
  }

  function EventWrites(a: Attempt, p: PlannedEvent): seq<Write> {
    [EventWrite(a, p)] + NodeWrites(p, p.nodes) + EventEvidence(a, p) + NodeEvidence(a, p, p.nodes)
    + Records(p) + ProjectionWrites(p, p.nodes)
  }

  function AllEventWrites(a: Attempt, planned: seq<PlannedEvent>): seq<Write> {
    if planned == [] then []
    else
      var p := planned[|planned| - 1];
      AllEventWrites(a, planned[..|planned| - 1]) + if Changed(p) then EventWrites(a, p) else []
  }

  function PendingWrites(a: Attempt): seq<Write> {
    var cell := PendingCell(true, a.now);
    [if a.pending.None? then Add(PendingKey, cell) else Modify(PendingKey, a.pending.value, cell),
     Add(OutboxKey(Rebuild(a.candidateId)), OutboxCell(0, []))]
  }

  function Writes(a: Attempt, planned: seq<PlannedEvent>): seq<Write> {
    AllEventWrites(a, planned) + PendingWrites(a)
  }

  // ---------------------------------------------------------------- the loops of the source

  method PlanEventNodes(a: Attempt, ms: seq<MilestoneProposal>, stored: seq<StoredNode>)
    returns (nodes: seq<PlannedNode>)
    requires NodesReadable(stored)
    ensures nodes == PlanNodes(a, ms, stored)
  {
    nodes := [];
    var i := 0;
    while i < |ms|
      invariant 0 <= i <= |ms|
      invariant nodes == ProposedNodes(a, ms[..i], stored)
    {
      nodes := nodes + [ProposedNode(a, ms[i], stored)];
      i := i + 1;
    }
    assert ms[..i] == ms;
    i := 0;
    while i < |stored|
      invariant 0 <= i <= |stored|
      invariant nodes == ProposedNodes(a, ms, stored) + RetainedNodes(ms, stored[..i])
    {
      assert stored[..i+1][..i] == stored[..i];
      if !Mentioned(ms, stored[i].key) {
        nodes := nodes + [PlannedNode(Some(stored[i].cell), FactsOf(stored[i]), None)];
      }
      i := i + 1;
    }
    assert stored[..i] == stored;
  }

  method AppendNodeWrites(effects: seq<Write>, p: PlannedEvent) returns (result: seq<Write>)
    ensures result == effects + NodeWrites(p, p.nodes)
  {
    result := effects;
    var i := 0;
    while i < |p.nodes|
      invariant 0 <= i <= |p.nodes|
      invariant result == effects + NodeWrites(p, p.nodes[..i])
    {
      assert p.nodes[..i+1][..i] == p.nodes[..i];
      result := result + NodeWrite(p, p.nodes[i]);
      i := i + 1;
    }
    assert p.nodes[..i] == p.nodes;
  }

  method AppendEvidence(effects: seq<Write>, a: Attempt, p: PlannedEvent) returns (result: seq<Write>)
    ensures result == effects + EventEvidence(a, p) + NodeEvidence(a, p, p.nodes)
  {
    var head := effects + EventEvidence(a, p);
    result := head;
    var i := 0;
    while i < |p.nodes|
      invariant 0 <= i <= |p.nodes|
      invariant result == head + NodeEvidence(a, p, p.nodes[..i])
    {
      assert p.nodes[..i+1][..i] == p.nodes[..i];
      if p.nodes[i].ref.Some? {
        result := result + [AddEvidence(Evidence(a.candidateId, Some(p.id), Some(IdOf(p, p.nodes[i])),
            a.article.version, p.nodes[i].ref.value))];
      }
      i := i + 1;
    }
    assert p.nodes[..i] == p.nodes;
  }

  method AppendProjectionWrites(effects: seq<Write>, p: PlannedEvent) returns (result: seq<Write>)
    ensures result == effects + ProjectionWrites(p, p.nodes)
  {
    result := effects;
    var i := 0;
    while i < |p.nodes|
      invariant 0 <= i <= |p.nodes|
      invariant result == effects + ProjectionWrites(p, p.nodes[..i])
    {
      assert p.nodes[..i+1][..i] == p.nodes[..i];
      result := result + ProjectionWrite(p, p.nodes[i]);
      i := i + 1;
    }
    assert p.nodes[..i] == p.nodes;
  }

  method AppendEventEffects(effects: seq<Write>, a: Attempt, p: PlannedEvent) returns (result: seq<Write>)
    ensures result == effects + EventWrites(a, p)
  {
    result := AppendNodeWrites(effects + [EventWrite(a, p)], p);
    result := AppendEvidence(result, a, p);
    result := AppendProjectionWrites(result + Records(p), p);
  }

  /** One proposed event: refuse, stop, or plan its nodes and classify what changed. */
  method PlanItem(a: Attempt, item: EventProposal, r: Reading) returns (d: Decision)
    ensures d == PlanOne(a, item, r)
  {
    if item.relation.Some? && a.manual.None? { return Refused; }
    var target := if a.manual.Some? then a.manual.value.target else None;
    if target.Some? && item.relation.Some? && item.relation.value != target.value { return Refused; }
    if a.candidate.run.Some? && r.event.Some? && r.associated { return Unchanged; }
    if target.Some? && r.event.None? { return Refused; }
    if r.event.Some? {
      var c := r.event.value;
      if !c.EventCell? || c.game != a.article.game || c.region != a.article.region { return Refused; }
    }
    if !NodesReadable(r.nodes) { return Refused; }
    var nodes := PlanEventNodes(a, item.milestones, r.nodes);
    if (WasLocked(r.event) || AnyNodeLocked(nodes)) && a.manual.None? { return Locked; }
    var facts := EventFacts(item.eventType, item.status, item.title, item.summary, a.article.url,
        ByHand(a) || WasLocked(r.event));
    var change := ClassifyPublicationChange(EventFactsOf(r.event), facts, AllFacts(r.nodes), NextFacts(nodes));
    var actor := ManualActor;
    if a.candidate.run.Some? && a.candidate.run.value.extractor.Some? {
      actor := a.candidate.run.value.extractor.value;
    }
    var reason := if a.manual.Some? then Some(a.manual.value.reason) else None;
    return Ready([PlannedEvent(TargetOf(a, item), r.event, facts, nodes, change, actor, target.Some?,
        reason, item.typeRef, item.statusRef)]);
  }

  method PlanAllItems(a: Attempt, items: seq<EventProposal>, readings: seq<Reading>) returns (d: Decision)
    requires |items| == |readings|
    ensures d == PlanItems(a, items, readings)
  {
    ghost var ds := ItemDecisions(a, items, readings);
    var planned: seq<PlannedEvent> := [];
    var i := 0;
    while i < |items|
      invariant 0 <= i <= |items|
      invariant Together(ds[..i]) == Ready(planned)
    {
      assert ds[..i+1][..i] == ds[..i];
      var one := PlanItem(a, items[i], readings[i]);
      if !one.Ready? {
        StopsEarly(ds, i + 1);
        return one;
      }
      planned := planned + one.planned;
      i := i + 1;
    }
    assert ds[..i] == ds;
    return Ready(planned);
  }

  /** Once an item stops the call, later items are not looked at. */
  lemma {:induction false} StopsEarly(ds: seq<Decision>, k: nat)
    requires k <= |ds| && !Together(ds[..k]).Ready?
    ensures Together(ds) == Together(ds[..k])
    decreases |ds| - k
  {
    if k == |ds| {
      assert ds[..k] == ds;
    } else {
      assert ds[..k+1][..k] == ds[..k];
      StopsEarly(ds, k + 1);
    }
  }

  method PlanAllWrites(a: Attempt, planned: seq<PlannedEvent>) returns (effects: seq<Write>)
    ensures effects == Writes(a, planned)
  {
    effects := [];
    var i := 0;
    while i < |planned|
      invariant 0 <= i <= |planned|
      invariant effects == AllEventWrites(a, planned[..i])
    {
      assert planned[..i+1][..i] == planned[..i];
      if Changed(planned[i]) { effects := AppendEventEffects(effects, a, planned[i]); }
      i := i + 1;
    }
    assert planned[..i] == planned;
    effects := effects + PendingWrites(a);
  }

  // ---------------------------------------------------------------- the guard

  predicate LinkedTo(db: Store, candidate: string) {
    exists e :: e in db.evidence && e.candidate == candidate && e.event.Some?
  }

  /** One planned event still matches the store: revisions, locks and projections, nothing missing. */
  predicate EventMatches(db: Store, a: Attempt, p: PlannedEvent) {
    && (a.candidate.run.Some? ==>
          !(exists e :: e in db.evidence && e.articleVersion == a.article.version && e.event == Some(p.id)))
    && (if p.prior.None? then EventKey(p.id) !in db.rows
        else
          && EventKey(p.id) in db.rows
          && db.rows[EventKey(p.id)].EventCell? && p.prior.value.EventCell?
          && db.rows[EventKey(p.id)].eventRevision == p.prior.value.eventRevision
          && db.rows[EventKey(p.id)].facts.locked == p.prior.value.facts.locked)
    && (forall i :: 0 <= i < |p.nodes| ==> NodeMatches(db, p, p.nodes[i]))
  }

  predicate NodeMatches(db: Store, p: PlannedEvent, n: PlannedNode) {
    var id := IdOf(p, n);
    if n.prior.None? then NodeKey(id) !in db.rows
    else
      && NodeKey(id) in db.rows && db.rows[NodeKey(id)].NodeCell? && n.prior.value.NodeCell?
      && db.rows[NodeKey(id)].publicRevision == n.prior.value.publicRevision
      && db.rows[NodeKey(id)].locked == n.prior.value.locked
      && ProjectionKey(id) in db.rows && db.rows[ProjectionKey(id)].ProjectionCell?
      && db.rows[ProjectionKey(id)].revision == n.prior.value.publicRevision
  }

  predicate PendingMatches(db: Store, pending: Option<int>) {
    if pending.None? then PendingKey !in db.rows
    else PendingKey in db.rows && db.rows[PendingKey].PendingCell? && db.rows[PendingKey].updatedAt == pending.value
  }

  predicate GuardHolds(db: Store, a: Attempt, planned: seq<PlannedEvent>) {
    && a.candidateId in db.candidates
    && db.candidates[a.candidateId].updatedAt == a.candidate.updatedAt
    && db.candidates[a.candidateId].proposal == a.candidate.proposal
    && db.candidates[a.candidateId].approved
    && (exists e :: e in db.evidence && e.candidate == a.candidateId && e.articleVersion == a.article.version)
    && !LinkedTo(db, a.candidateId)
    && !(exists v :: v in db.articles && (db.articles[v].article == a.article.id
                                            && db.articles[v].number > a.article.number))
    && PendingMatches(db, a.pending)
    && (forall i :: 0 <= i < |planned| ==> EventMatches(db, a, planned[i]))
  }

  function Guard(a: Attempt, planned: seq<PlannedEvent>): Store -> Cas.Exec<Store> {
    (db: Store) => if GuardHolds(db, a, planned) then Cas.Rows(db, 1, 0) else Cas.NoRows
  }

  function CommitPlan(a: Attempt, planned: seq<PlannedEvent>): Cas.Plan<Store> {
    Cas.Plan([], Cas.UpdateVerb, Guard(a, planned), CompileAll(Writes(a, planned)))
  }

  datatype PublishOutcome = Published | NotPublished(why: Decision) | ConditionMissed | Failed

  function Publish(a: Attempt, db: Store): (PublishOutcome, Store) {
    var d := Decide(a);
    if !d.Ready? then (NotPublished(d), db)
    else
      var r := Cas.Commit(CommitPlan(a, d.planned), db);
      (if r.0 == Cas.Committed then Published else if r.0 == Cas.ConditionMissed then ConditionMissed else Failed, r.1)
  }

  /** The commit phase against the live database. */
  method PublishCandidate(db: Cas.Database<Store>, a: Attempt) returns (outcome: PublishOutcome)
    modifies db
    ensures (outcome, db.state) == Publish(a, old(db.state))
  {
    var d := Decide(a);
    if !d.Ready? { return NotPublished(d); }
    var effects := PlanAllWrites(a, d.planned);
    var r := db.ConditionalCommit(Cas.Plan([], Cas.UpdateVerb, Guard(a, d.planned), CompileAll(effects)));
    return if r == Cas.Committed then Published else if r == Cas.ConditionMissed then ConditionMissed else Failed;
  }
}
