/** What a successful publication leaves behind, and what it must not touch. */
module PublishingOutcomes {
  import opened Wrappers
  import opened Time
  import opened Changes
  import opened FactStore
  import opened Publishing
  import opened PublishingPlans
  import opened PublishingRuns

  predicate StoresNode(db: Store, id: NodeId, facts: NodeFacts) {
    GoodNode(db, id) && FactsOf(StoredNode(facts.key, db.rows[NodeKey(id)])) == facts
  }

  predicate StoresEvent(db: Store, e: string, facts: EventFacts) {
    EventKey(e) in db.rows && db.rows[EventKey(e)].EventCell? && db.rows[EventKey(e)].facts == facts
  }

  lemma NoOtherWithId(planned: seq<PlannedEvent>, i: nat)
    requires DistinctIds(planned) && i < |planned| && !Changed(planned[i])
    ensures !ChangedId(planned, planned[i].id)
  {
    forall j | 0 <= j < |planned| && Changed(planned[j]) ensures planned[j].id != planned[i].id {
      assert j < i || i < j;
    }
  }

  lemma UnchangedPlanIsStored(db: Store, a: Attempt, planned: seq<PlannedEvent>, db': Store, i: nat)
    requires Commits(db, a, planned, db') && i < |planned| && !Changed(planned[i])
    ensures !ChangedId(planned, planned[i].id)
    ensures StoresEvent(db', planned[i].id, planned[i].facts)
  {
    var p := planned[i];
    assert PlannedShape(p) && PlanMatches(db, p);
    EventRowsSame(db, a, planned, db', p.id) by {
      NoOtherWithId(planned, i);
    }
  }

  lemma UnchangedNodeIsStored(db: Store, a: Attempt, planned: seq<PlannedEvent>, db': Store, i: nat, n: PlannedNode)
    requires Commits(db, a, planned, db') && i < |planned| && !Changed(planned[i]) && n in planned[i].nodes
    ensures StoresNode(db', IdOf(planned[i], n), n.facts)
  {
    var p := planned[i];
    UnchangedPlanIsStored(db, a, planned, db', i);
    EventRowsSame(db, a, planned, db', p.id);
    assert PlannedShape(p) && PlanMatches(db, p);
    var j :| 0 <= j < |p.nodes| && p.nodes[j] == n;
    assert NodeShape(p, p.nodes[j]) && !ChangeOf(p, n).changed;
    assert RowAt(db, NodeKey(NodeId(p.id, n.facts.key))) == RowAt(db', NodeKey(NodeId(p.id, n.facts.key)));
  }

  lemma ChangedNodeIsStored(db: Store, a: Attempt, planned: seq<PlannedEvent>, db': Store, i: nat, n: PlannedNode)
    requires Commits(db, a, planned, db') && i < |planned| && Changed(planned[i]) && n in planned[i].nodes
    ensures StoresNode(db', IdOf(planned[i], n), n.facts)
  {
    var p := planned[i];
    EventAfter(db, a, planned, db', i);
    NodeAfter(db, a, planned, db', i, n);
    assert PlannedShape(p);
    var j :| 0 <= j < |p.nodes| && p.nodes[j] == n;
    assert NodeShape(p, p.nodes[j]);
    ColumnsRoundTrip(n.facts.time);
  }

  lemma {:induction false} PlanIsStored(h: seq<Store>, a: Attempt, db': Store, i: nat)
    requires |h| > 0 && Ordered(h) && AllInv(h) && AttemptFrom(h, a)
    requires Publish(a, h[|h| - 1]) == (Published, db')
    requires Decide(a).Ready? && i < |Decide(a).planned|
    ensures var p := Decide(a).planned[i];
            StoresEvent(db', p.id, p.facts) && forall n :: n in p.nodes ==> StoresNode(db', IdOf(p, n), n.facts)
  {
    var db, planned := h[|h| - 1], Decide(a).planned;
    PublishIsSerializable(h, a);
    var p := planned[i];
    if Changed(p) { EventAfter(db, a, planned, db', i); } else { UnchangedPlanIsStored(db, a, planned, db', i); }
    forall n | n in p.nodes ensures StoresNode(db', IdOf(p, n), n.facts) {
      if Changed(p) {
        ChangedNodeIsStored(db, a, planned, db', i, n);
      } else {
        UnchangedNodeIsStored(db, a, planned, db', i, n);
      }
    }
  }

  lemma PublishedMeansReady(db: Store, a: Attempt, db': Store)
    requires Publish(a, db) == (Published, db')
    ensures Decide(a).Ready?
  {
  }

  lemma {:induction false} PlannedIsCurrent(h: seq<Store>, a: Attempt, db': Store, i: nat)
    requires |h| > 0 && Ordered(h) && AllInv(h) && AttemptFrom(h, a)
    requires Publish(a, h[|h| - 1]) == (Published, db')
    requires Decide(a).Ready? && i < |Decide(a).planned|
    ensures PlanMatches(h[|h| - 1], Decide(a).planned[i])
  {
    PublishIsSerializable(h, a);
  }

  predicate ShowsEvent(db: Store, e: string, item: EventProposal, url: Option<string>) {
    && EventKey(e) in db.rows && db.rows[EventKey(e)].EventCell?
    && db.rows[EventKey(e)].facts.(locked := false)
       == EventFacts(item.eventType, item.status, item.title, item.summary, url, false)
  }

  predicate ShowsMilestone(db: Store, e: string, m: MilestoneProposal) {
    && GoodNode(db, NodeId(e, m.key))
    && var c := db.rows[NodeKey(NodeId(e, m.key))];
       c.nodeType == m.nodeType && c.title == m.title && FromColumns(c.time) == m.time
  }

  /** After a publication the store shows every proposed event and milestone exactly as proposed,
      whether or not that event had to be written. */
  lemma {:induction false} PublishedFactsAreStored(h: seq<Store>, a: Attempt, db': Store, i: nat)
    requires ValidRun(h) && AttemptFrom(h, a) && Publish(a, h[|h| - 1]) == (Published, db')
    requires a.candidate.proposal.Events? && i < |a.candidate.proposal.events|
    ensures var item := a.candidate.proposal.events[i];
            && ShowsEvent(db', TargetOf(a, item), item, a.article.url)
            && forall m :: m in item.milestones ==> ShowsMilestone(db', TargetOf(a, item), m)
  {
    RunIsOrdered(h);
    PublishedMeansReady(h[|h| - 1], a, db');
    DecisionShape(a);
    PlannedFrom(h, a, i);
    PlanIsStored(h, a, db', i);
    PlannedFacts(h, a, i);
    ProposedAreStored(a, a.candidate.proposal.events[i], a.readings[i].nodes, Decide(a).planned[i], db');
  }

  lemma {:induction false} PlannedFacts(h: seq<Store>, a: Attempt, i: nat)
    requires AttemptFrom(h, a) && Decide(a).Ready? && i < |Decide(a).planned|
    requires a.candidate.proposal.Events? && |a.candidate.proposal.events| == |a.readings| == |Decide(a).planned|
    ensures NodesReadable(a.readings[i].nodes)
    ensures Decide(a).planned[i] == PlanEvent(a, a.candidate.proposal.events[i], a.readings[i])
  {
    DecisionShape(a);
    PlanItemsShape(a, a.candidate.proposal.events, a.readings);
  }

  lemma ProposedAreStored(a: Attempt, item: EventProposal, stored: seq<StoredNode>, p: PlannedEvent, db': Store)
    requires NodesReadable(stored) && p.nodes == PlanNodes(a, item.milestones, stored) && p.id == TargetOf(a, item)
    requires p.facts.(locked := false) ==
        EventFacts(item.eventType, item.status, item.title, item.summary, a.article.url, false)
    requires StoresEvent(db', p.id, p.facts) && forall n :: n in p.nodes ==> StoresNode(db', IdOf(p, n), n.facts)
    ensures ShowsEvent(db', p.id, item, a.article.url)
    ensures forall m :: m in item.milestones ==> ShowsMilestone(db', p.id, m)
  {
    forall m | m in item.milestones ensures ShowsMilestone(db', p.id, m) {
      var j :| 0 <= j < |item.milestones| && item.milestones[j] == m;
      var n := ProposedNode(a, m, stored);
      assert p.nodes[j] == n;
      assert n in p.nodes && StoresNode(db', IdOf(p, n), n.facts);
    }
  }

  /** An omission is not a cancellation: a milestone the candidate does not mention keeps all its facts. */
  lemma {:induction false} OmittedMilestonesAreKept(h: seq<Store>, a: Attempt, db': Store, i: nat, key: string)
    requires ValidRun(h) && AttemptFrom(h, a) && Publish(a, h[|h| - 1]) == (Published, db')
    requires a.candidate.proposal.Events? && i < |a.candidate.proposal.events|
    requires !Mentioned(a.candidate.proposal.events[i].milestones, key)
    requires NodeKey(NodeId(TargetOf(a, a.candidate.proposal.events[i]), key)) in h[|h| - 1].rows
    ensures var id := NodeId(TargetOf(a, a.candidate.proposal.events[i]), key);
            && GoodNode(h[|h| - 1], id)
            && StoresNode(db', id, FactsOf(StoredNode(key, h[|h| - 1].rows[NodeKey(id)])))
  {
    RunIsOrdered(h);
    PublishedMeansReady(h[|h| - 1], a, db');
    DecisionShape(a);
    PlannedFrom(h, a, i);
    PlannedIsCurrent(h, a, db', i);
    PlanIsStored(h, a, db', i);
    OmissionIsKept(h[|h| - 1], a, Decide(a).planned[i], a.candidate.proposal.events[i].milestones,
        a.readings[i].nodes, db', key);
  }

  lemma OmissionIsKept(
      db: Store, a: Attempt, p: PlannedEvent, ms: seq<MilestoneProposal>, stored: seq<StoredNode>,
          db': Store, key: string)
    requires UniqueStored(stored) && NodesReadable(stored) && p.nodes == PlanNodes(a, ms, stored)
    requires Inv(db) && PlanMatches(db, p) && NodeKey(NodeId(p.id, key)) in db.rows && !Mentioned(ms, key)
    requires forall n :: n in p.nodes ==> StoresNode(db', IdOf(p, n), n.facts)
    ensures var id := NodeId(p.id, key);
            GoodNode(db, id) && StoresNode(db', id, FactsOf(StoredNode(key, db.rows[NodeKey(id)])))
  {
    StoredRowIsOk(db, NodeKey(NodeId(p.id, key)));
    var n := PlannedOmission(db, a, p, ms, stored, key);
    assert StoresNode(db', IdOf(p, n), n.facts);
  }

  lemma PlannedOmission(
      db: Store, a: Attempt, p: PlannedEvent, ms: seq<MilestoneProposal>, stored: seq<StoredNode>, key: string)
    returns (n: PlannedNode)
    requires UniqueStored(stored) && NodesReadable(stored) && p.nodes == PlanNodes(a, ms, stored)
    requires PlanMatches(db, p) && NodeKey(NodeId(p.id, key)) in db.rows && !Mentioned(ms, key)
    ensures n in p.nodes && n.facts.key == key
    ensures var cell := db.rows[NodeKey(NodeId(p.id, key))];
            cell.NodeCell? && Readable(cell.time) && n.facts == FactsOf(StoredNode(key, cell))
  {
    var j :| 0 <= j < |p.nodes| && p.nodes[j].facts.key == key;
    n := p.nodes[j];
    RetainedFacts(a, ms, stored, n);
  }

  lemma RetainedFacts(a: Attempt, ms: seq<MilestoneProposal>, stored: seq<StoredNode>, n: PlannedNode)
    requires UniqueStored(stored) && NodesReadable(stored)
    requires n in PlanNodes(a, ms, stored) && !Mentioned(ms, n.facts.key)
    ensures n.prior.Some? && n.prior.value.NodeCell? && Readable(n.prior.value.time)
    ensures n.facts == FactsOf(StoredNode(n.facts.key, n.prior.value))
  {
    var j :| 0 <= j < |PlanNodes(a, ms, stored)| && PlanNodes(a, ms, stored)[j] == n;
    assert j >= |ms| by { assert j < |ms| ==> Mentioned(ms, ms[j].key); }
    RetainedExactly(ms, stored, n);
  }

  lemma {:induction false} RetainedExactly(ms: seq<MilestoneProposal>, stored: seq<StoredNode>, n: PlannedNode)
    requires NodesReadable(stored) && n in RetainedNodes(ms, stored)
    ensures n.prior.Some? && n.prior.value.NodeCell? && Readable(n.prior.value.time)
    ensures n.facts == FactsOf(StoredNode(n.facts.key, n.prior.value))
  {
    if n in RetainedNodes(ms, stored[..|stored| - 1]) { RetainedExactly(ms, stored[..|stored| - 1], n); }
  }

  ghost predicate LockedSomewhere(db: Store, e: string) {
    || (EventKey(e) in db.rows && WasLocked(Some(db.rows[EventKey(e)])))
    || exists key :: NodeKey(NodeId(e, key)) in db.rows && WasLocked(Some(db.rows[NodeKey(NodeId(e, key))]))
  }

  /** Facts entered by hand are only ever changed by hand: an automatic publication leaves every row
      of an event with a lock on it, or on any of its milestones, as it is. */
  lemma {:induction false} LocksAreRespected(h: seq<Store>, a: Attempt, db': Store, k: Key)
    requires ValidRun(h) && AttemptFrom(h, a) && a.manual.None? && Publish(a, h[|h| - 1]) == (Published, db')
    requires Owner(k).Some? && LockedSomewhere(h[|h| - 1], Owner(k).value)
    ensures RowAt(h[|h| - 1], k) == RowAt(db', k)
  {
    RunIsOrdered(h);
    PublishedMeansReady(h[|h| - 1], a, db');
    var db, planned, e := h[|h| - 1], Decide(a).planned, Owner(k).value;
    PublishIsSerializable(h, a);
    if ChangedId(planned, e) {
      var i :| 0 <= i < |planned| && Changed(planned[i]) && planned[i].id == e;
      NotLocked(h, a, i);
    } else {
      UntouchedEvent(db, a, planned, k);
    }
  }

  lemma {:induction false} NotLocked(h: seq<Store>, a: Attempt, i: nat)
    requires |h| > 0 && AttemptFrom(h, a) && Decide(a).Ready? && a.manual.None? && i < |Decide(a).planned|
    requires PlanMatches(h[|h| - 1], Decide(a).planned[i])
    ensures !LockedSomewhere(h[|h| - 1], Decide(a).planned[i].id)
  {
    var db, p := h[|h| - 1], Decide(a).planned[i];
    PlannedFrom(h, a, i);
    DecisionShape(a);
    PlanItemsShape(a, a.candidate.proposal.events, a.readings);
    assert !AnyNodeLocked(p.nodes);
    forall key | NodeKey(NodeId(p.id, key)) in db.rows ensures !WasLocked(Some(db.rows[NodeKey(NodeId(p.id, key))])) {
      var j :| 0 <= j < |p.nodes| && p.nodes[j].facts.key == key;
      assert p.nodes[j] in p.nodes;
    }
  }

  // ---------------------------------------------------------------- revisions move exactly with what they stand for

  lemma PublicRevisionOfPlanned(db: Store, a: Attempt, planned: seq<PlannedEvent>, db': Store, i: nat, n: PlannedNode)
    requires Commits(db, a, planned, db') && i < |planned| && Changed(planned[i]) && n in planned[i].nodes
        && n.prior.Some?
    ensures var id := IdOf(planned[i], n);
            && GoodNode(db, id) && GoodNode(db', id)
            && db'.rows[NodeKey(id)].publicRevision ==
                 db.rows[NodeKey(id)].publicRevision + (if NodeView(db, id) == NodeView(db', id) then 0 else 1)
  {
    var p := planned[i];
    EventAfter(db, a, planned, db', i);
    NodeAfter(db, a, planned, db', i, n);
    assert PlannedShape(p) && PlanMatches(db, p);
    var j :| 0 <= j < |p.nodes| && p.nodes[j] == n;
    assert NodeShape(p, n);
    ColumnsRoundTrip(n.facts.time);
    StoredRowIsOk(db, NodeKey(IdOf(p, n)));
  }

  /** The public revision of a stored milestone rises by one when what subscribers see of it changes, and
      otherwise not at all. */
  lemma {:induction false} PublicRevisionMovesExactly(h: seq<Store>, a: Attempt, db': Store, n: NodeId)
    requires ValidRun(h) && AttemptFrom(h, a) && Publish(a, h[|h| - 1]) == (Published, db')
    requires NodeKey(n) in h[|h| - 1].rows
    ensures GoodNode(h[|h| - 1], n) && GoodNode(db', n)
    ensures db'.rows[NodeKey(n)].publicRevision ==
              h[|h| - 1].rows[NodeKey(n)].publicRevision
              + (if NodeView(h[|h| - 1], n) == NodeView(db', n) then 0 else 1)
  {
    RunIsOrdered(h);
    PublishedMeansReady(h[|h| - 1], a, db');
    PublishIsSerializable(h, a);
    PublicRevisionOfStored(h[|h| - 1], a, Decide(a).planned, db', n);
  }

  /** A stored milestone of a changed event is one of that event's planned milestones. */
  lemma PlannedNodeOf(db: Store, a: Attempt, planned: seq<PlannedEvent>, db': Store, n: NodeId)
    returns (i: nat, m: PlannedNode)
    requires Commits(db, a, planned, db') && NodeKey(n) in db.rows && ChangedId(planned, n.event)
    ensures i < |planned| && Changed(planned[i]) && m in planned[i].nodes && m.prior.Some? && IdOf(planned[i], m) == n
  {
    i :| 0 <= i < |planned| && Changed(planned[i]) && planned[i].id == n.event;
    assert PlanMatches(db, planned[i]);
    assert n == NodeId(n.event, n.key);
    var j :| 0 <= j < |planned[i].nodes| && planned[i].nodes[j].facts.key == n.key;
    m := planned[i].nodes[j];
    assert m in planned[i].nodes && IdOf(planned[i], m) == n;
  }

  lemma PublicRevisionOfStored(db: Store, a: Attempt, planned: seq<PlannedEvent>, db': Store, n: NodeId)
    requires Commits(db, a, planned, db') && NodeKey(n) in db.rows
    ensures GoodNode(db, n) && GoodNode(db', n)
    ensures db'.rows[NodeKey(n)].publicRevision ==
              db.rows[NodeKey(n)].publicRevision + (if NodeView(db, n) == NodeView(db', n) then 0 else 1)
  {
    assert n == NodeId(n.event, n.key);
    StoredRowIsOk(db, NodeKey(n));
    if ChangedId(planned, n.event) {
      var i, m := PlannedNodeOf(db, a, planned, db', n);
      PublicRevisionOfPlanned(db, a, planned, db', i, m);
    } else {
      EventRowsSame(db, a, planned, db', n.event);
      assert RowAt(db, NodeKey(NodeId(n.event, n.key))) == RowAt(db', NodeKey(NodeId(n.event, n.key)));
    }
  }

  function FactsReminder(e: EventFacts, f: NodeFacts): ReminderView {
    ReminderView(e.eventType, f.nodeType, ClockOf(f.time), CanUseExactAlarm(e.status, f.time))
  }

  lemma ReminderAfter(db: Store, a: Attempt, planned: seq<PlannedEvent>, db': Store, i: nat, n: PlannedNode)
    requires Commits(db, a, planned, db') && i < |planned| && Changed(planned[i]) && n in planned[i].nodes
    ensures ReminderAt(db', IdOf(planned[i], n)) == Some(FactsReminder(planned[i].facts, n.facts))
  {
    EventAfter(db, a, planned, db', i);
    ChangedNodeIsStored(db, a, planned, db', i, n);
  }

  lemma ReminderBefore(db: Store, p: PlannedEvent, n: PlannedNode)
    requires Inv(db) && PlanMatches(db, p) && PlannedShape(p) && n in p.nodes
    ensures n.prior.None? ==> ReminderAt(db, IdOf(p, n)).None?
    ensures n.prior.Some? ==>
              p.prior.Some? && p.prior.value.EventCell? && PriorFacts(n).Some?
              && ReminderAt(db, IdOf(p, n)) == Some(FactsReminder(p.prior.value.facts, PriorFacts(n).value))
  {
    StoredRowIsOk(db, NodeKey(IdOf(p, n)));
  }

  lemma ReminderOfPlanned(db: Store, a: Attempt, planned: seq<PlannedEvent>, db': Store, i: nat, n: PlannedNode)
    requires Commits(db, a, planned, db') && i < |planned| && Changed(planned[i]) && n in planned[i].nodes
    ensures ChangeOf(planned[i], n).scheduleChanged <==>
              ReminderAt(db, IdOf(planned[i], n)) != ReminderAt(db', IdOf(planned[i], n))
  {
    var p := planned[i];
    assert PlannedShape(p) && PlanMatches(db, p);
    ReminderAfter(db, a, planned, db', i, n);
    ReminderBefore(db, p, n);
    ScheduleMeansReminder(p, n);
  }

  lemma ScheduleMeansReminder(p: PlannedEvent, n: PlannedNode)
    requires PlannedShape(p) && n in p.nodes && (n.prior.Some? ==> p.prior.Some? && p.prior.value.EventCell?)
    ensures ChangeOf(p, n).scheduleChanged <==>
              (n.prior.None? || PriorFacts(n).None?
               || FactsReminder(p.prior.value.facts, PriorFacts(n).value) != FactsReminder(p.facts, n.facts))
  {
    var j :| 0 <= j < |p.nodes| && p.nodes[j] == n;
    assert NodeShape(p, p.nodes[j]);
  }

  lemma {:induction false} ChangedNodesAre(p: PlannedEvent, ns: seq<PlannedNode>, id: NodeId)
    ensures id in ChangedNodes(p, ns) <==> exists n :: n in ns && ChangeOf(p, n).scheduleChanged && IdOf(p, n) == id
  {
    if ns != [] {
      ChangedNodesAre(p, ns[..|ns| - 1], id);
      assert ns == ns[..|ns| - 1] + [ns[|ns| - 1]];
    }
  }

  lemma RecordsInstalled(db: Store, a: Attempt, planned: seq<PlannedEvent>, db': Store, i: nat)
    requires Commits(db, a, planned, db') && i < |planned| && Changed(planned[i])
    ensures var p := planned[i];
            && RowAt(db', OutboxKey(Notice(p.id, Revision(p)))) ==
                Some(OutboxCell(ScheduleRevision(p), ChangedNodes(p, p.nodes)))
            && RowAt(db', RevisionKey(p.id, Revision(p))) == Some(RevisionCell(KindOf(p), p.actor, p.reason))
  {
    var p := planned[i];
    EventWritesForms(a, p);
    Installed(db, a, planned, i, Records(p)[0]);
    Installed(db, a, planned, i, Records(p)[1]);
  }

  /** The notice row of a written event, against the reminders before and after. */
  predicate NoticeTells(db: Store, db': Store, e: string, key: string) {
    && EventKey(e) in db'.rows && db'.rows[EventKey(e)].EventCell?
    && var event := db'.rows[EventKey(e)];
       var notice := RowAt(db', OutboxKey(Notice(e, event.eventRevision)));
       && notice.Some? && notice.value.OutboxCell? && notice.value.schedule == event.scheduleRevision
       && (NodeId(e, key) in notice.value.changedNodes <==>
             ReminderAt(db, NodeId(e, key)) != ReminderAt(db', NodeId(e, key)))
  }

  lemma NoticeOfPlanned(db: Store, a: Attempt, planned: seq<PlannedEvent>, db': Store, i: nat, key: string)
    requires Commits(db, a, planned, db') && i < |planned| && Changed(planned[i])
    ensures NoticeTells(db, db', planned[i].id, key)
  {
    EventAfter(db, a, planned, db', i);
    RecordsInstalled(db, a, planned, db', i);
    ListedIffChanged(db, a, planned, db', i, key);
  }

  lemma ListedIffChanged(db: Store, a: Attempt, planned: seq<PlannedEvent>, db': Store, i: nat, key: string)
    requires Commits(db, a, planned, db') && i < |planned| && Changed(planned[i])
    ensures NodeId(planned[i].id, key) in ChangedNodes(planned[i], planned[i].nodes) <==>
              ReminderAt(db, NodeId(planned[i].id, key)) != ReminderAt(db', NodeId(planned[i].id, key))
  {
    var p := planned[i];
    ChangedNodesAre(p, p.nodes, NodeId(p.id, key));
    if HasKey(p.nodes, key) {
      var j :| 0 <= j < |p.nodes| && p.nodes[j].facts.key == key;
      assert p.nodes[j] in p.nodes;
      ReminderOfPlanned(db, a, planned, db', i, p.nodes[j]);
      OneNodePerKey(p, j);
    } else {
      UnplannedKey(db, a, planned, db', i, key);
    }
  }

  /** Only planned changes touch an event row. */
  lemma WrittenIsPlanned(db: Store, a: Attempt, planned: seq<PlannedEvent>, db': Store, e: string) returns (i: nat)
    requires Commits(db, a, planned, db') && RowAt(db, EventKey(e)) != RowAt(db', EventKey(e))
    ensures i < |planned| && Changed(planned[i]) && planned[i].id == e
  {
    assert ChangedId(planned, e) by {
      if !ChangedId(planned, e) { UntouchedEvent(db, a, planned, EventKey(e)); }
    }
    i :| 0 <= i < |planned| && Changed(planned[i]) && planned[i].id == e;
  }

  /** When a publication writes an event, its notice lists exactly the milestones whose reminders changed and
      carries the schedule revision the event now has. */
  lemma {:induction false} NoticeIsExact(h: seq<Store>, a: Attempt, db': Store, e: string, key: string)
    requires ValidRun(h) && AttemptFrom(h, a) && Publish(a, h[|h| - 1]) == (Published, db')
    requires RowAt(h[|h| - 1], EventKey(e)) != RowAt(db', EventKey(e))
    ensures NoticeTells(h[|h| - 1], db', e, key)
  {
    RunIsOrdered(h);
    PublishedMeansReady(h[|h| - 1], a, db');
    PublishIsSerializable(h, a);
    var i := WrittenIsPlanned(h[|h| - 1], a, Decide(a).planned, db', e);
    NoticeOfPlanned(h[|h| - 1], a, Decide(a).planned, db', i, key);
  }

  lemma OneNodePerKey(p: PlannedEvent, j: nat)
    requires PlannedShape(p) && j < |p.nodes|
    ensures forall n :: n in p.nodes && n.facts.key == p.nodes[j].facts.key ==> n == p.nodes[j]
  {
    forall n | n in p.nodes && n.facts.key == p.nodes[j].facts.key ensures n == p.nodes[j] {
      var k :| 0 <= k < |p.nodes| && p.nodes[k] == n;
      assert k == j;
    }
  }

  /** The history record of a written event, against the event before and after. */
  predicate RecordTells(db: Store, db': Store, e: string) {
    && EventKey(e) in db'.rows && db'.rows[EventKey(e)].EventCell?
    && var event := db'.rows[EventKey(e)];
       var record := RowAt(db', RevisionKey(e, event.eventRevision));
       && record.Some? && record.value.RevisionCell?
       && (record.value.kind == Created <==> EventKey(e) !in db.rows)
       && (EventKey(e) in db.rows ==>
             && db.rows[EventKey(e)].EventCell?
             && event.eventRevision == db.rows[EventKey(e)].eventRevision + 1
             && KindAgrees(record.value.kind, db.rows[EventKey(e)], event))
  }

  predicate KindAgrees(kind: ChangeKind, before: Cell, after: Cell)
    requires before.EventCell? && after.EventCell?
  {
    && (kind == StatusUpdated ==> before.facts.status != after.facts.status)
    && (kind == ScheduleUpdated ==> before.scheduleRevision < after.scheduleRevision)
    && (kind == ContentUpdated ==>
          before.scheduleRevision == after.scheduleRevision && before.facts.status == after.facts.status)
  }

  lemma RecordOfPlanned(db: Store, a: Attempt, planned: seq<PlannedEvent>, db': Store, i: nat)
    requires Commits(db, a, planned, db') && i < |planned| && Changed(planned[i])
    ensures RecordTells(db, db', planned[i].id)
  {
    EventAfter(db, a, planned, db', i);
    RecordsInstalled(db, a, planned, db', i);
    assert PlannedShape(planned[i]) && PlanMatches(db, planned[i]);
    var p, key := planned[i], EventKey(planned[i].id);
    KindIsTrue(p, db'.rows[key]);
    StoredRowIsOk(db, key);
  }

  lemma KindIsTrue(p: PlannedEvent, after: Cell)
    requires PlannedShape(p) && after.EventCell?
    requires after.facts == p.facts && after.scheduleRevision == ScheduleRevision(p)
    ensures KindOf(p) == Created <==> p.prior.None?
    ensures p.prior.Some? ==> KindAgrees(KindOf(p), p.prior.value, after)
  {
  }

  /** When a publication writes an event, the history record written with it tells the truth about the change. */
  lemma {:induction false} HistoryRecordIsTrue(h: seq<Store>, a: Attempt, db': Store, e: string)
    requires ValidRun(h) && AttemptFrom(h, a) && Publish(a, h[|h| - 1]) == (Published, db')
    requires RowAt(h[|h| - 1], EventKey(e)) != RowAt(db', EventKey(e))
    ensures RecordTells(h[|h| - 1], db', e)
  {
    RunIsOrdered(h);
    PublishedMeansReady(h[|h| - 1], a, db');
    PublishIsSerializable(h, a);
    var i := WrittenIsPlanned(h[|h| - 1], a, Decide(a).planned, db', e);
    RecordOfPlanned(h[|h| - 1], a, Decide(a).planned, db', i);
  }

  // ---------------------------------------------------------------- a publication that happens

  const SOME_MILESTONE := MilestoneProposal("start", Start, "opens", Unknown("UTC+8", "soon", Unresolved), "b2")

  const SOME_EVENT := EventProposal("e1", Livestream, Scheduled, "show", None, "b1", None, None, [SOME_MILESTONE])

  const SOME_CANDIDATE: Candidate<Proposal> :=
    Candidate(1, Events([SOME_EVENT]), true, Some(Run(true, "v1", Some(RuleActor))))

  const SOME_ARTICLE := Article("a", "v1", 1, "site", "42", "hsr", "cn", None, true)

  const SOME_ATTEMPT: Attempt :=
    Attempt("c", SOME_CANDIDATE, SOME_ARTICLE, None, false, false, [SOME_READING], None, 5, None)

  const SOME_STORE: Store :=
    Db(map[], {Evidence("c", None, None, "v1", "b1")}, map["c" := SOME_CANDIDATE], map["v1" := ArticleVersion("a", 1)])

  const SOME_READING := Reading(None, [], false)

  lemma SomeNodesAreNew()
    ensures NodesReadable(SOME_READING.nodes)
    ensures forall n :: n in PlanEvent(SOME_ATTEMPT, SOME_EVENT, SOME_READING).nodes ==> n.prior.None?
  {
  }

  lemma SomeItem()
    ensures NodesReadable(SOME_READING.nodes)
    ensures PlanOne(SOME_ATTEMPT, SOME_EVENT, SOME_READING) ==
      Ready([PlanEvent(SOME_ATTEMPT, SOME_EVENT, SOME_READING)])
    ensures Changed(PlanEvent(SOME_ATTEMPT, SOME_EVENT, SOME_READING))
  {
    SomeNodesAreNew();
    var p := PlanEvent(SOME_ATTEMPT, SOME_EVENT, SOME_READING);
    assert forall i :: 0 <= i < |p.nodes| ==> p.nodes[i] in p.nodes;
  }

  lemma SomePlan()
    ensures NodesReadable(SOME_READING.nodes)
    ensures Decide(SOME_ATTEMPT) == Ready([PlanEvent(SOME_ATTEMPT, SOME_EVENT, SOME_READING)])
  {
    SomeItem();
    var p := PlanEvent(SOME_ATTEMPT, SOME_EVENT, SOME_READING);
    var ds := ItemDecisions(SOME_ATTEMPT, [SOME_EVENT], [SOME_READING]);
    assert ds == [Ready([p])] && ds[..0] == [];
    assert Together(ds) == Ready([p]);
    assert Changed([p][0]);
  }

  lemma SomeGuard()
    ensures NodesReadable(SOME_READING.nodes)
    ensures GuardHolds(SOME_STORE, SOME_ATTEMPT, [PlanEvent(SOME_ATTEMPT, SOME_EVENT, SOME_READING)])
  {
    SomeNodesAreNew();
    var p := PlanEvent(SOME_ATTEMPT, SOME_EVENT, SOME_READING);
    assert EventMatches(SOME_STORE, SOME_ATTEMPT, p) by {
      assert forall i :: 0 <= i < |p.nodes| ==> p.nodes[i] in p.nodes;
    }
    assert Evidence("c", None, None, "v1", "b1") in SOME_STORE.evidence;
  }

  /** Runs in which a candidate is published exist, so what is said about them is not empty. */
  lemma PublishingHappens()
    ensures ValidRun([SOME_STORE]) && AttemptFrom([SOME_STORE], SOME_ATTEMPT)
    ensures Publish(SOME_ATTEMPT, SOME_STORE).0 == Published
  {
    var h := [SOME_STORE];
    assert Observed(h, TargetOf(SOME_ATTEMPT, SOME_EVENT), SOME_READING) by {
      assert ReadAt(h[0], h[0], TargetOf(SOME_ATTEMPT, SOME_EVENT), SOME_READING);
    }
    SomePlan();
    SomeGuard();
    RunIsOrdered(h);
    PublishIsSerializable(h, SOME_ATTEMPT);
  }
}
