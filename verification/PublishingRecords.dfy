/** What a publication leaves besides the facts: revisions, history, evidence and the rebuild signal, each
    exactly when and exactly as the change asks for it. */
module PublishingRecords {
  import opened Wrappers
  import opened Changes
  import opened FactStore
  import opened Publishing
  import opened PublishingPlans
  import opened PublishingRuns
  import opened PublishingOutcomes
  import opened PublishingLocks
  import opened PublishingDecision

  /** The proposed event says something the store does not, or associates an article with it. */
  predicate News(db: Store, a: Attempt, item: EventProposal) { Associates(a) || !AlreadySays(db, a, item) }

  function RevisionOf(db: Store, e: string): nat {
    if EventKey(e) in db.rows && db.rows[EventKey(e)].EventCell? then db.rows[EventKey(e)].eventRevision else 0
  }

  function ScheduleOf(db: Store, e: string): nat {
    if EventKey(e) in db.rows && db.rows[EventKey(e)].EventCell? then db.rows[EventKey(e)].scheduleRevision else 0
  }

  ghost predicate RemindersMoved(db: Store, db': Store, e: string) {
    exists key :: ReminderAt(db, NodeId(e, key)) != ReminderAt(db', NodeId(e, key))
  }

  /** A successful publication, one of its events, and the plan made for it. */
  lemma {:induction false} PublishedPlan(h: seq<Store>, a: Attempt, db': Store, i: nat)
    requires ValidRun(h) && AttemptFrom(h, a) && Publish(a, h[|h| - 1]) == (Published, db')
    requires a.candidate.proposal.Events? && i < |a.candidate.proposal.events|
    ensures Decide(a).Ready? && |Decide(a).planned| == |a.candidate.proposal.events| == |a.readings|
    ensures Commits(h[|h| - 1], a, Decide(a).planned, db')
    ensures var p, item := Decide(a).planned[i], a.candidate.proposal.events[i];
            && NodesReadable(a.readings[i].nodes) && UniqueStored(a.readings[i].nodes)
            && p == PlanEvent(a, item, a.readings[i]) && p.id == TargetOf(a, item)
            && PlannedShape(p) && PlanMatches(h[|h| - 1], p)
            && (Changed(p) <==> News(h[|h| - 1], a, item))
  {
    RunIsOrdered(h);
    PublishedMeansReady(h[|h| - 1], a, db');
    DecisionShape(a);
    PublishIsSerializable(h, a);
    PlannedFrom(h, a, i);
    PlannedFacts(h, a, i);
    ChangedMeansNew(h[|h| - 1], a, a.candidate.proposal.events[i], a.readings[i]);
  }

  lemma NothingMoves(db: Store, a: Attempt, planned: seq<PlannedEvent>, db': Store, i: nat)
    requires Commits(db, a, planned, db') && i < |planned| && !Changed(planned[i])
    ensures RowAt(db, EventKey(planned[i].id)) == RowAt(db', EventKey(planned[i].id))
    ensures !RemindersMoved(db, db', planned[i].id)
  {
    NoOtherWithId(planned, i);
    EventRowsSame(db, a, planned, db', planned[i].id);
    forall key ensures ReminderAt(db, NodeId(planned[i].id, key)) == ReminderAt(db', NodeId(planned[i].id, key)) {
      SameRowsKeepNode(db, db', NodeId(planned[i].id, key));
    }
  }

  lemma ScheduleMoves(db: Store, a: Attempt, planned: seq<PlannedEvent>, db': Store, i: nat)
    requires Commits(db, a, planned, db') && i < |planned| && Changed(planned[i])
    ensures planned[i].change.scheduleRevision <==> RemindersMoved(db, db', planned[i].id)
  {
    var p := planned[i];
    assert PlannedShape(p) && PlanMatches(db, p);
    if RemindersMoved(db, db', p.id) {
      var key :| ReminderAt(db, NodeId(p.id, key)) != ReminderAt(db', NodeId(p.id, key));
      ListedIffChanged(db, a, planned, db', i, key);
      ChangedNodesAre(p, p.nodes, NodeId(p.id, key));
      var n :| n in p.nodes && ChangeOf(p, n).scheduleChanged;
      var k :| 0 <= k < |p.nodes| && p.nodes[k] == n;
    }
    if p.change.scheduleRevision {
      var k := RescheduledNode(db, p);
      assert p.nodes[k] in p.nodes;
      ReminderOfPlanned(db, a, planned, db', i, p.nodes[k]);
      assert ReminderAt(db, NodeId(p.id, p.nodes[k].facts.key)) != ReminderAt(db', NodeId(p.id, p.nodes[k].facts.key));
    }
  }

  lemma RescheduledNode(db: Store, p: PlannedEvent) returns (k: nat)
    requires Inv(db) && PlannedShape(p) && PlanMatches(db, p) && p.change.scheduleRevision
    ensures k < |p.nodes| && ChangeOf(p, p.nodes[k]).scheduleChanged
  {
    if p.prior.None? {
      k := 0;
      assert p.nodes[0] in p.nodes && NodeShape(p, p.nodes[0]);
      StoredRowIsOk(db, NodeKey(IdOf(p, p.nodes[0])));
    } else {
      k :| k < |p.nodes| && ChangeOf(p, p.nodes[k]).scheduleChanged;
    }
  }

  /** The event revision rises by one exactly when there is news, which is exactly when the event row is written;
      the schedule revision rises by one exactly when some reminder of the event changes. */
  lemma {:induction false} RevisionsMoveExactly(h: seq<Store>, a: Attempt, db': Store, i: nat)
    requires ValidRun(h) && AttemptFrom(h, a) && Publish(a, h[|h| - 1]) == (Published, db')
    requires a.candidate.proposal.Events? && i < |a.candidate.proposal.events|
    ensures var db, item := h[|h| - 1], a.candidate.proposal.events[i];
            var e := TargetOf(a, item);
            && RevisionOf(db', e) == RevisionOf(db, e) + (if News(db, a, item) then 1 else 0)
            && ScheduleOf(db', e) == ScheduleOf(db, e) + (if RemindersMoved(db, db', e) then 1 else 0)
            && (RowAt(db, EventKey(e)) != RowAt(db', EventKey(e)) <==> News(db, a, item))
  {
    PublishedPlan(h, a, db', i);
    var db, planned := h[|h| - 1], Decide(a).planned;
    if Changed(planned[i]) {
      EventAfter(db, a, planned, db', i);
      ScheduleMoves(db, a, planned, db', i);
    } else {
      NothingMoves(db, a, planned, db', i);
    }
  }

  lemma PlaceAfter(db: Store, a: Attempt, planned: seq<PlannedEvent>, db': Store, i: nat)
    requires Commits(db, a, planned, db') && i < |planned| && Changed(planned[i])
    ensures var p := planned[i];
            && EventKey(p.id) in db'.rows && db'.rows[EventKey(p.id)].EventCell?
            && var from := if p.prior.Some? && p.prior.value.EventCell? then (p.prior.value.game, p.prior.value.region)
                           else (a.article.game, a.article.region);
               db'.rows[EventKey(p.id)].game == from.0 && db'.rows[EventKey(p.id)].region == from.1
  {
    var p := planned[i];
    EventWritesForms(a, p);
    Installed(db, a, planned, i, EventWrite(a, p));
    assert PlannedShape(p) && PlanMatches(db, p);
  }

  /** A published event is always one of the article's own game and region. */
  lemma {:induction false} PlaceIsTheArticles(h: seq<Store>, a: Attempt, db': Store, i: nat)
    requires ValidRun(h) && AttemptFrom(h, a) && Publish(a, h[|h| - 1]) == (Published, db')
    requires a.candidate.proposal.Events? && i < |a.candidate.proposal.events|
    ensures var e := TargetOf(a, a.candidate.proposal.events[i]);
            && EventKey(e) in db'.rows && db'.rows[EventKey(e)].EventCell?
            && db'.rows[EventKey(e)].game == a.article.game && db'.rows[EventKey(e)].region == a.article.region
  {
    PublishedPlan(h, a, db', i);
    PublishedExactly(h, a);
    var db, planned := h[|h| - 1], Decide(a).planned;
    assert Allowed(a, a.candidate.proposal.events[i], a.readings[i]);
    if Changed(planned[i]) {
      PlaceAfter(db, a, planned, db', i);
    } else {
      NothingMoves(db, a, planned, db', i);
      PublishedFactsAreStored(h, a, db', i);
    }
  }

  // ---------------------------------------------------------------- history

  /** The first of these that applies names the change. */
  ghost function KindOfChange(db: Store, db': Store, a: Attempt, item: EventProposal): ChangeKind {
    var e := TargetOf(a, item);
    if !(EventKey(e) in db.rows && db.rows[EventKey(e)].EventCell?) then Created
    else if Associates(a) then Associated
    else if item.status == Retracted then RetractedKind
    else if a.candidate.run.None? then ManualCorrected
    else if db.rows[EventKey(e)].facts.status != item.status then StatusUpdated
    else if RemindersMoved(db, db', e) then ScheduleUpdated
    else ContentUpdated
  }

  /** Whose change it is: the administrator's, or that of the rule or model that extracted it. */
  function AuthorOf(a: Attempt): Actor {
    if a.candidate.run.Some? && a.candidate.run.value.extractor.Some?
    then a.candidate.run.value.extractor.value else ManualActor
  }

  /** News is recorded once, at the revision the event now has: what kind of change, whose, and the
      administrator's reason. */
  lemma {:induction false} HistoryIsExact(h: seq<Store>, a: Attempt, db': Store, i: nat)
    requires ValidRun(h) && AttemptFrom(h, a) && Publish(a, h[|h| - 1]) == (Published, db')
    requires a.candidate.proposal.Events? && i < |a.candidate.proposal.events|
    requires News(h[|h| - 1], a, a.candidate.proposal.events[i])
    ensures var db, item := h[|h| - 1], a.candidate.proposal.events[i];
            var e := TargetOf(a, item);
            RowAt(db', RevisionKey(e, RevisionOf(db', e))) ==
              Some(RevisionCell(KindOfChange(db, db', a, item), AuthorOf(a),
                                if a.manual.Some? then Some(a.manual.value.reason) else None))
  {
    PublishedPlan(h, a, db', i);
    DecidedMeansReviewed(a);
    RecordOfEvent(h[|h| - 1], a, Decide(a).planned, db', i, a.candidate.proposal.events[i], a.readings[i]);
  }

  lemma RecordOfEvent(
      db: Store, a: Attempt, planned: seq<PlannedEvent>, db': Store, i: nat, item: EventProposal, r: Reading)
    requires Commits(db, a, planned, db') && i < |planned| && Changed(planned[i]) && Reviewed(a)
    requires NodesReadable(r.nodes) && planned[i] == PlanEvent(a, item, r)
    ensures var e := TargetOf(a, item);
            RowAt(db', RevisionKey(e, RevisionOf(db', e))) ==
              Some(RevisionCell(KindOfChange(db, db', a, item), AuthorOf(a),
                                if a.manual.Some? then Some(a.manual.value.reason) else None))
  {
    EventAfter(db, a, planned, db', i);
    RecordsInstalled(db, a, planned, db', i);
    ScheduleMoves(db, a, planned, db', i);
    KindNamed(db, db', a, item, r);
  }

  lemma KindNamed(db: Store, db': Store, a: Attempt, item: EventProposal, r: Reading)
    requires Reviewed(a) && NodesReadable(r.nodes)
    requires var p := PlanEvent(a, item, r);
             PlanMatches(db, p) && PlannedShape(p) && (p.change.scheduleRevision <==> RemindersMoved(db, db', p.id))
    ensures KindOf(PlanEvent(a, item, r)) == KindOfChange(db, db', a, item)
    ensures PlanEvent(a, item, r).actor == AuthorOf(a)
  {
  }

  // ---------------------------------------------------------------- evidence

  function Cites(a: Attempt, item: EventProposal, node: Option<NodeId>, ref: string): Evidence {
    Evidence(a.candidateId, Some(TargetOf(a, item)), node, a.article.version, ref)
  }

  /** The passages of the article a proposed event rests on. */
  predicate Cited(a: Attempt, item: EventProposal, x: Evidence) {
    || x == Cites(a, item, None, item.typeRef)
    || (item.statusRef.Some? && x == Cites(a, item, None, item.statusRef.value))
    || exists m :: m in item.milestones && x == Cites(a, item, Some(NodeId(TargetOf(a, item), m.key)), m.ref)
  }

  predicate CitesNode(a: Attempt, p: PlannedEvent, n: PlannedNode, x: Evidence) {
    n.ref.Some? && x == Evidence(a.candidateId, Some(p.id), Some(IdOf(p, n)), a.article.version, n.ref.value)
  }

  lemma {:induction false} NodeEvidenceIs(a: Attempt, p: PlannedEvent, ns: seq<PlannedNode>, x: Evidence)
    ensures AddEvidence(x) in NodeEvidence(a, p, ns) <==> exists n :: n in ns && CitesNode(a, p, n, x)
  {
    if ns != [] {
      var k := |ns| - 1;
      NodeEvidenceIs(a, p, ns[..k], x);
      assert ns == ns[..k] + [ns[k]];
      assert AddEvidence(x) in NodeEvidence(a, p, ns) <==>
             AddEvidence(x) in NodeEvidence(a, p, ns[..k]) || CitesNode(a, p, ns[k], x);
      if n :| n in ns && CitesNode(a, p, n, x) { assert n in ns[..k] || n == ns[k]; }
      if n :| n in ns[..k] && CitesNode(a, p, n, x) { assert n in ns; }
      assert ns[k] in ns;
    }
  }

  lemma {:induction false} RetainedCiteNothing(ms: seq<MilestoneProposal>, stored: seq<StoredNode>)
    requires NodesReadable(stored)
    ensures forall n :: n in RetainedNodes(ms, stored) ==> n.ref.None?
  {
    if stored != [] { RetainedCiteNothing(ms, stored[..|stored| - 1]); }
  }

  lemma OnlyProposedCite(a: Attempt, ms: seq<MilestoneProposal>, stored: seq<StoredNode>, k: nat)
    requires NodesReadable(stored) && k < |PlanNodes(a, ms, stored)|
    ensures PlanNodes(a, ms, stored)[k].ref.Some? ==> k < |ms|
  {
    RetainedCiteNothing(ms, stored);
    if k >= |ms| { assert PlanNodes(a, ms, stored)[k] in RetainedNodes(ms, stored); }
  }

  lemma PlannedCite(a: Attempt, item: EventProposal, r: Reading, n: PlannedNode, x: Evidence)
    requires NodesReadable(r.nodes) && n in PlanEvent(a, item, r).nodes && CitesNode(a, PlanEvent(a, item, r), n, x)
    ensures exists m :: m in item.milestones && x == Cites(a, item, Some(NodeId(TargetOf(a, item), m.key)), m.ref)
  {
    var ns, ms := PlanEvent(a, item, r).nodes, item.milestones;
    var k :| 0 <= k < |ns| && ns[k] == n;
    OnlyProposedCite(a, ms, r.nodes, k);
    assert n == ProposedNode(a, ms[k], r.nodes) && ms[k] in ms;
  }

  lemma ProposedCite(a: Attempt, item: EventProposal, r: Reading, m: MilestoneProposal, x: Evidence)
    requires NodesReadable(r.nodes) && m in item.milestones
    requires x == Cites(a, item, Some(NodeId(TargetOf(a, item), m.key)), m.ref)
    ensures exists n :: n in PlanEvent(a, item, r).nodes && CitesNode(a, PlanEvent(a, item, r), n, x)
  {
    var p, ms := PlanEvent(a, item, r), item.milestones;
    var k :| 0 <= k < |ms| && ms[k] == m;
    assert p.nodes[k] == ProposedNode(a, m, r.nodes) && p.nodes[k] in p.nodes;
    assert CitesNode(a, p, p.nodes[k], x);
  }

  lemma NodesCite(a: Attempt, item: EventProposal, r: Reading, x: Evidence)
    requires NodesReadable(r.nodes)
    ensures var p := PlanEvent(a, item, r);
            (exists n :: n in p.nodes && CitesNode(a, p, n, x)) <==>
              exists m :: m in item.milestones && x == Cites(a, item, Some(NodeId(TargetOf(a, item), m.key)), m.ref)
  {
    var p := PlanEvent(a, item, r);
    if n :| n in p.nodes && CitesNode(a, p, n, x) { PlannedCite(a, item, r, n, x); }
    if m :| m in item.milestones && x == Cites(a, item, Some(NodeId(TargetOf(a, item), m.key)), m.ref) {
      ProposedCite(a, item, r, m, x);
    }
  }

  lemma EventCites(a: Attempt, item: EventProposal, r: Reading, x: Evidence)
    requires NodesReadable(r.nodes)
    ensures AddEvidence(x) in EventWrites(a, PlanEvent(a, item, r)) <==> Cited(a, item, x)
  {
    var p := PlanEvent(a, item, r);
    NodeEvidenceIs(a, p, p.nodes, x);
    NodesCite(a, item, r, x);
    NodeWritesMembers(p, p.nodes);
    ProjectionWritesMembers(p, p.nodes);
  }

  lemma EvidenceWritten(a: Attempt, planned: seq<PlannedEvent>, x: Evidence)
    ensures AddEvidence(x) in Writes(a, planned) <==>
              exists i :: 0 <= i < |planned| && Changed(planned[i]) && AddEvidence(x) in EventWrites(a, planned[i])
  {
    AllEventWritesMembers(a, planned);
    assert AddEvidence(x) !in PendingWrites(a);
  }

  predicate CitedBy(db: Store, a: Attempt, item: EventProposal, x: Evidence) { News(db, a, item) && Cited(a, item, x) }

  lemma {:induction false} WrittenIsCited(h: seq<Store>, a: Attempt, db': Store, i: nat, x: Evidence)
    requires ValidRun(h) && AttemptFrom(h, a) && Publish(a, h[|h| - 1]) == (Published, db')
    requires a.candidate.proposal.Events? && i < |a.candidate.proposal.events|
    ensures Decide(a).Ready? && |Decide(a).planned| == |a.candidate.proposal.events|
    ensures Changed(Decide(a).planned[i]) && AddEvidence(x) in EventWrites(a, Decide(a).planned[i]) <==>
              CitedBy(h[|h| - 1], a, a.candidate.proposal.events[i], x)
  {
    PublishedPlan(h, a, db', i);
    EventCites(a, a.candidate.proposal.events[i], a.readings[i], x);
  }

  lemma EvidenceOfCommit(
      db: Store, a: Attempt, planned: seq<PlannedEvent>, items: seq<EventProposal>, db': Store, x: Evidence)
    requires db' == Fold(Writes(a, planned), db) && |items| == |planned|
    requires forall i :: 0 <= i < |items| ==>
               (Changed(planned[i]) && AddEvidence(x) in EventWrites(a, planned[i]) <==> CitedBy(db, a, items[i], x))
    ensures x in db'.evidence <==>
              x in db.evidence || exists i :: 0 <= i < |items| && CitedBy(db, a, items[i], x)
  {
    FoldTables(Writes(a, planned), db);
    EvidenceWritten(a, planned, x);
  }

  /** Exactly the passages behind the news are added as evidence, and nothing is ever removed. */
  lemma {:induction false} EvidenceIsExact(h: seq<Store>, a: Attempt, db': Store, x: Evidence)
    requires ValidRun(h) && AttemptFrom(h, a) && Publish(a, h[|h| - 1]) == (Published, db')
    ensures a.candidate.proposal.Events?
    ensures var items := a.candidate.proposal.events;
            x in db'.evidence <==>
              x in h[|h| - 1].evidence || exists i :: 0 <= i < |items| && CitedBy(h[|h| - 1], a, items[i], x)
  {
    var db := h[|h| - 1];
    PublishedMeansReady(db, a, db');
    DecisionShape(a);
    var items, planned := a.candidate.proposal.events, Decide(a).planned;
    forall i | 0 <= i < |items|
      ensures Changed(planned[i]) && AddEvidence(x) in EventWrites(a, planned[i]) <==> CitedBy(db, a, items[i], x)
    {
      WrittenIsCited(h, a, db', i, x);
    }
    assert db' == Fold(Writes(a, planned), db) by { PublishedPlan(h, a, db', 0); }
    EvidenceOfCommit(db, a, planned, items, db', x);
  }

  // ---------------------------------------------------------------- the rebuild signal

  lemma SignalInstalled(db: Store, a: Attempt, planned: seq<PlannedEvent>, w: Write)
    requires DistinctKeys(Writes(a, planned)) && AllApplicable(Writes(a, planned), db) && w in PendingWrites(a)
    ensures Applicable(w, db) && RowAt(Fold(Writes(a, planned), db), w.key) == Some(NewCell(w, db))
  {
    assert w in Writes(a, planned);
    FoldOf(Writes(a, planned), db, w);
  }

  lemma SignalOfCommit(db: Store, a: Attempt, planned: seq<PlannedEvent>)
    requires DistinctKeys(Writes(a, planned)) && AllApplicable(Writes(a, planned), db)
    ensures var db' := Fold(Writes(a, planned), db);
            && RowAt(db', PendingKey) == Some(PendingCell(true, a.now))
            && OutboxKey(Rebuild(a.candidateId)) in db'.rows && OutboxKey(Rebuild(a.candidateId)) !in db.rows
  {
    SignalInstalled(db, a, planned, PendingWrites(a)[0]);
    SignalInstalled(db, a, planned, PendingWrites(a)[1]);
  }

  /** Every publication asks for a new snapshot: the pending mark is set at its time, and its own rebuild request
      is in the outbox. */
  lemma {:induction false} RebuildIsSignalled(h: seq<Store>, a: Attempt, db': Store)
    requires ValidRun(h) && AttemptFrom(h, a) && Publish(a, h[|h| - 1]) == (Published, db')
    ensures RowAt(db', PendingKey) == Some(PendingCell(true, a.now))
    ensures OutboxKey(Rebuild(a.candidateId)) in db'.rows && OutboxKey(Rebuild(a.candidateId)) !in h[|h| - 1].rows
  {
    RunIsOrdered(h);
    PublishedMeansReady(h[|h| - 1], a, db');
    PublishIsSerializable(h, a);
    SignalOfCommit(h[|h| - 1], a, Decide(a).planned);
  }
}
