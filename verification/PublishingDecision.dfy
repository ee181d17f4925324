/** When a candidate is published, and the records a publication leaves: exact conditions on what was
    approved, what was read and what is stored. */
module PublishingDecision {
  import opened Wrappers
  import opened Time
  import opened Changes
  import opened FactStore
  import opened Publishing
  import opened PublishingPlans
  import opened PublishingRuns
  import opened PublishingOutcomes
  import opened PublishingLocks

  // ---------------------------------------------------------------- what a publication asks for

  /** The review and the article: an approved, unpublished candidate of the newest complete version, extracted
      by a successful run of that version or entered by hand; retractions only by a retracting administrator. */
  predicate Reviewed(a: Attempt) {
    && a.candidate.approved && !a.linked && !a.newer && a.article.complete
    && (a.expectedUpdatedAt.Some? ==> a.candidate.updatedAt == a.expectedUpdatedAt.value)
    && (a.candidate.run.Some? ==>
          && a.manual.None? && a.candidate.run.value.succeeded
          && a.candidate.run.value.articleVersion == a.article.version
          && a.candidate.run.value.extractor.Some? && a.candidate.run.value.extractor.value != ManualActor)
    && a.candidate.proposal.Events? && ValidProposal(a.candidate.proposal.events)
    && |a.candidate.proposal.events| == |a.readings|
    && (forall i :: 0 <= i < |a.readings| ==>
          (a.candidate.proposal.events[i].status == Retracted <==> a.manual.Some? && a.manual.value.retract))
    && (a.manual.Some? && a.manual.value.target.Some? ==> |a.readings| == 1)
  }

  predicate AnyLock(r: Reading) {
    WasLocked(r.event) || exists i :: 0 <= i < |r.nodes| && WasLocked(Some(r.nodes[i].cell))
  }

  /** One proposed event against what was read of its target: an existing target is in the article's game and
      region, only an administrator relates articles or touches locked facts, and an extraction reaches an
      event once per article version. */
  predicate Allowed(a: Attempt, item: EventProposal, r: Reading) {
    && NodesReadable(r.nodes)
    && (item.relation.Some? || AnyLock(r) ==> a.manual.Some?)
    && (r.event.Some? ==>
          r.event.value.EventCell? && r.event.value.game == a.article.game && r.event.value.region == a.article.region)
    && (a.candidate.run.Some? && r.event.Some? ==> !r.associated)
    && (a.manual.Some? && a.manual.value.target.Some? ==>
          r.event.Some? && (item.relation.Some? ==> item.relation.value == a.manual.value.target.value))
  }

  predicate AllAllowed(a: Attempt) {
    && a.candidate.proposal.Events? && |a.candidate.proposal.events| == |a.readings|
    && (forall i :: 0 <= i < |a.readings| ==> Allowed(a, a.candidate.proposal.events[i], a.readings[i]))
    && (forall i, j :: 0 <= i < j < |a.readings| ==>
          TargetOf(a, a.candidate.proposal.events[i]) != TargetOf(a, a.candidate.proposal.events[j]))
  }

  lemma ProposedPriors(a: Attempt, ms: seq<MilestoneProposal>, stored: seq<StoredNode>)
    requires UniqueMilestones(ms) && UniqueStored(stored) && NodesReadable(stored)
    ensures AnyNodeLocked(PlanNodes(a, ms, stored)) <==>
              exists i :: 0 <= i < |stored| && WasLocked(Some(stored[i].cell))
  {
    var ns := PlanNodes(a, ms, stored);
    PlanNodesShape(a, ms, stored);
    if k :| 0 <= k < |ns| && WasLocked(ns[k].prior) {
      assert ns[k] in ns && FromStored(ns[k], stored);
    }
    if i :| 0 <= i < |stored| && WasLocked(Some(stored[i].cell)) {
      assert stored[i] in stored;
      var k :| 0 <= k < |ns| && ns[k].facts.key == stored[i].key;
      assert ns[k] in ns && FromStored(ns[k], stored);
      FindNodeFinds(stored, i);
      assert WasLocked(ns[k].prior);
    }
  }

  lemma AllowedMeansReady(a: Attempt, item: EventProposal, r: Reading)
    requires UniqueMilestones(item.milestones) && UniqueStored(r.nodes)
    ensures PlanOne(a, item, r).Ready? <==> Allowed(a, item, r)
  {
    if NodesReadable(r.nodes) { ProposedPriors(a, item.milestones, r.nodes); }
  }

  lemma {:induction false} TogetherReady(ds: seq<Decision>)
    ensures Together(ds).Ready? <==> forall i :: 0 <= i < |ds| ==> ds[i].Ready?
  {
    if ds != [] {
      var n := |ds| - 1;
      TogetherReady(ds[..n]);
      assert forall i :: 0 <= i < n ==> ds[..n][i] == ds[i];
    }
  }

  ghost predicate UniqueReadings(a: Attempt) {
    forall i :: 0 <= i < |a.readings| ==> UniqueStored(a.readings[i].nodes)
  }

  lemma ItemsReady(a: Attempt)
    requires Reviewed(a) && UniqueReadings(a)
    ensures PlanItems(a, a.candidate.proposal.events, a.readings).Ready? <==>
              forall i :: 0 <= i < |a.readings| ==> Allowed(a, a.candidate.proposal.events[i], a.readings[i])
  {
    var items := a.candidate.proposal.events;
    TogetherReady(ItemDecisions(a, items, a.readings));
    forall i | 0 <= i < |items|
      ensures PlanOne(a, items[i], a.readings[i]).Ready? <==> Allowed(a, items[i], a.readings[i])
    {
      AllowedMeansReady(a, items[i], a.readings[i]);
    }
  }

  lemma DecidedMeansReviewed(a: Attempt)
    requires Decide(a).Ready?
    ensures Reviewed(a)
  {
    DecisionShape(a);
  }

  lemma ReviewedMeansPlanned(a: Attempt)
    requires Reviewed(a)
    ensures var d := PlanItems(a, a.candidate.proposal.events, a.readings);
            Decide(a) == if !d.Ready? then d
                         else if !DistinctIds(d.planned) then Refused
                         else if !AnyChanged(d.planned) then Unchanged else d
  {
  }

  /** The decision before the commit: everything reviewed, every event allowed, and something to write. */
  lemma ReadyExactly(a: Attempt)
    requires UniqueReadings(a)
    ensures Decide(a).Ready? <==>
              Reviewed(a) && AllAllowed(a)
              && exists i :: 0 <= i < |a.readings|
                   && Changed(PlanEvent(a, a.candidate.proposal.events[i], a.readings[i]))
  {
    if Decide(a).Ready? { DecidedMeansReviewed(a); }
    if Reviewed(a) {
      ReviewedMeansPlanned(a);
      ItemsReady(a);
      if PlanItems(a, a.candidate.proposal.events, a.readings).Ready? {
        PlannedEach(a);
        SamePlans(a, PlanItems(a, a.candidate.proposal.events, a.readings).planned);
      }
    }
  }

  lemma SamePlans(a: Attempt, planned: seq<PlannedEvent>)
    requires a.candidate.proposal.Events? && |planned| == |a.candidate.proposal.events| == |a.readings|
    requires forall i :: 0 <= i < |planned| ==>
               NodesReadable(a.readings[i].nodes)
               && planned[i] == PlanEvent(a, a.candidate.proposal.events[i], a.readings[i])
               && planned[i].id == TargetOf(a, a.candidate.proposal.events[i])
    ensures DistinctIds(planned) <==>
              forall i, j :: 0 <= i < j < |a.readings| ==>
                TargetOf(a, a.candidate.proposal.events[i]) != TargetOf(a, a.candidate.proposal.events[j])
    ensures AnyChanged(planned) <==>
              exists i :: 0 <= i < |a.readings| && Changed(PlanEvent(a, a.candidate.proposal.events[i], a.readings[i]))
  {
  }

  lemma PlannedEach(a: Attempt)
    requires Reviewed(a) && PlanItems(a, a.candidate.proposal.events, a.readings).Ready?
    ensures var planned := PlanItems(a, a.candidate.proposal.events, a.readings).planned;
            && |planned| == |a.readings|
            && (forall i :: 0 <= i < |planned| ==>
                  NodesReadable(a.readings[i].nodes)
                  && planned[i] == PlanEvent(a, a.candidate.proposal.events[i], a.readings[i])
                  && planned[i].id == TargetOf(a, a.candidate.proposal.events[i]))
  {
    PlanItemsShape(a, a.candidate.proposal.events, a.readings);
  }

  // ---------------------------------------------------------------- the store against what was read

  /** The candidate is as it was read, has evidence in this version and none for an event yet, no newer version of
      the article has arrived, and the rebuild signal is the one that was read. */
  predicate CandidateCurrent(db: Store, a: Attempt) {
    && a.candidateId in db.candidates && db.candidates[a.candidateId].approved
    && db.candidates[a.candidateId].updatedAt == a.candidate.updatedAt
    && db.candidates[a.candidateId].proposal == a.candidate.proposal
    && (exists e :: e in db.evidence && e.candidate == a.candidateId && e.articleVersion == a.article.version)
    && !LinkedTo(db, a.candidateId)
    && (forall v :: v in db.articles && db.articles[v].article == a.article.id ==>
          db.articles[v].number <= a.article.number)
    && (if a.pending.Some? then PendingKey in db.rows && db.rows[PendingKey].PendingCell?
                                && db.rows[PendingKey].updatedAt == a.pending.value
        else PendingKey !in db.rows)
  }

  predicate VersionReached(db: Store, version: string, e: string) {
    exists x :: x in db.evidence && x.articleVersion == version && x.event == Some(e)
  }

  /** The event and all of its milestones are stored as they were read. */
  ghost predicate ReadingCurrent(db: Store, e: string, r: Reading) {
    && r.event == RowAt(db, EventKey(e))
    && forall key :: FindNode(r.nodes, key) == RowAt(db, NodeKey(NodeId(e, key)))
  }

  ghost predicate Current(db: Store, a: Attempt) {
    && CandidateCurrent(db, a)
    && a.candidate.proposal.Events? && |a.candidate.proposal.events| == |a.readings|
    && forall i :: 0 <= i < |a.readings| ==>
         var e := TargetOf(a, a.candidate.proposal.events[i]);
         && ReadingCurrent(db, e, a.readings[i])
         && (a.candidate.run.Some? ==> !VersionReached(db, a.article.version, e))
  }

  lemma CurrentMatches(db: Store, a: Attempt, i: nat)
    requires Inv(db) && Decide(a).Ready? && UniqueReadings(a) && Current(db, a) && i < |Decide(a).planned|
    ensures EventMatches(db, a, Decide(a).planned[i])
  {
    DecisionShape(a);
    DecidedMeansReviewed(a);
    PlannedEach(a);
    var p, r := Decide(a).planned[i], a.readings[i];
    var ms := a.candidate.proposal.events[i].milestones;
    PlanNodesShape(a, ms, r.nodes);
    StoredRowIsOk(db, EventKey(p.id));
    forall k | 0 <= k < |p.nodes| ensures NodeMatches(db, p, p.nodes[k]) {
      assert p.nodes[k] in p.nodes && FromStored(p.nodes[k], r.nodes);
      StoredRowIsOk(db, NodeKey(IdOf(p, p.nodes[k])));
    }
  }

  lemma {:induction false} MatchedIsCurrent(h: seq<Store>, a: Attempt, i: nat)
    requires |h| > 0 && Ordered(h) && AllInv(h) && AttemptFrom(h, a) && Decide(a).Ready?
    requires i < |Decide(a).planned| && EventMatches(h[|h| - 1], a, Decide(a).planned[i])
    ensures i < |a.readings| && ReadingCurrent(h[|h| - 1], Decide(a).planned[i].id, a.readings[i])
  {
    var db, p := h[|h| - 1], Decide(a).planned[i];
    PlannedFrom(h, a, i);
    if p.prior.Some? {
      ReadingIsCurrent(h, p.id, a.readings[i]);
    } else {
      forall key ensures NodeKey(NodeId(p.id, key)) !in db.rows {
        StoredRowIsOk(db, NodeKey(NodeId(p.id, key)));
      }
    }
  }

  lemma {:induction false} ReadingsAreUnique(h: seq<Store>, a: Attempt)
    requires AttemptFrom(h, a) && a.candidate.proposal.Events? && |a.candidate.proposal.events| == |a.readings|
    ensures UniqueReadings(a)
  {
    forall i | 0 <= i < |a.readings| ensures UniqueStored(a.readings[i].nodes) {
      var e := TargetOf(a, a.candidate.proposal.events[i]);
      assert Observed(h, e, a.readings[i]);
      var s, t :| 0 <= s <= t < |h| && ReadAt(h[s], h[t], e, a.readings[i]);
    }
  }

  lemma {:induction false} CurrentHolds(h: seq<Store>, a: Attempt)
    requires |h| > 0 && AllInv(h) && AttemptFrom(h, a) && Decide(a).Ready? && Current(h[|h| - 1], a)
    ensures GuardHolds(h[|h| - 1], a, Decide(a).planned)
  {
    var db, planned := h[|h| - 1], Decide(a).planned;
    ReadingsAreUnique(h, a);
    forall i | 0 <= i < |planned| ensures EventMatches(db, a, planned[i]) { CurrentMatches(db, a, i); }
  }

  lemma {:induction false} HoldingIsCurrent(h: seq<Store>, a: Attempt)
    requires |h| > 0 && Ordered(h) && AllInv(h) && AttemptFrom(h, a) && Decide(a).Ready?
    requires GuardHolds(h[|h| - 1], a, Decide(a).planned)
    ensures Current(h[|h| - 1], a)
  {
    var db, planned := h[|h| - 1], Decide(a).planned;
    DecisionShape(a);
    forall i | 0 <= i < |planned|
      ensures ReadingCurrent(db, TargetOf(a, a.candidate.proposal.events[i]), a.readings[i])
      ensures a.candidate.run.Some? ==>
                !VersionReached(db, a.article.version, TargetOf(a, a.candidate.proposal.events[i]))
    {
      assert EventMatches(db, a, planned[i]);
      PlannedFrom(h, a, i);
      MatchedIsCurrent(h, a, i);
    }
    assert CandidateCurrent(db, a);
  }

  // ---------------------------------------------------------------- something to say

  /** The store already says everything the proposed event says, locks included. */
  predicate AlreadySays(db: Store, a: Attempt, item: EventProposal) {
    var e := TargetOf(a, item);
    && ShowsEvent(db, e, item, a.article.url) && (EnteredByHand(a) ==> EventLocked(db, e))
    && forall m :: m in item.milestones ==> SaysMilestone(db, a, e, m)
  }

  predicate SaysMilestone(db: Store, a: Attempt, e: string, m: MilestoneProposal) {
    ShowsMilestone(db, e, m) && (EnteredByHand(a) ==> NodeLocked(db, NodeId(e, m.key)))
  }

  predicate Associates(a: Attempt) { a.manual.Some? && a.manual.value.target.Some? }

  lemma NodeUnchanged(db: Store, a: Attempt, p: PlannedEvent, m: MilestoneProposal, n: PlannedNode)
    requires Inv(db) && PlanMatches(db, p) && PlannedShape(p) && n in p.nodes && n.facts.key == m.key
    requires n.facts == NodeFacts(m.key, m.nodeType, m.title, m.time, EnteredByHand(a) || WasLocked(n.prior))
    ensures !ChangeOf(p, n).changed <==> SaysMilestone(db, a, p.id, m)
  {
    var k :| 0 <= k < |p.nodes| && p.nodes[k] == n;
    assert NodeShape(p, p.nodes[k]);
    StoredRowIsOk(db, NodeKey(IdOf(p, n)));
  }

  lemma KeptNodeUnchanged(p: PlannedEvent, ms: seq<MilestoneProposal>, stored: seq<StoredNode>, n: PlannedNode)
    requires NodesReadable(stored) && PlannedShape(p) && n in p.nodes && n in RetainedNodes(ms, stored)
    ensures !ChangeOf(p, n).changed
  {
    RetainedExactly(ms, stored, n);
    var k :| 0 <= k < |p.nodes| && p.nodes[k] == n;
    assert NodeShape(p, p.nodes[k]);
  }

  lemma EventUnchanged(db: Store, a: Attempt, item: EventProposal, p: PlannedEvent)
    requires PlanMatches(db, p) && (p.prior.Some? ==> p.prior.value.EventCell?) && p.id == TargetOf(a, item)
    requires p.facts == EventFacts(item.eventType, item.status, item.title, item.summary, a.article.url,
                                   EnteredByHand(a) || WasLocked(p.prior))
    ensures !(EventPublicChanged(EventFactsOf(p.prior), p.facts) || LockChanged(EventFactsOf(p.prior), p.facts)) <==>
              ShowsEvent(db, p.id, item, a.article.url) && (EnteredByHand(a) ==> EventLocked(db, p.id))
  {
  }

  /** A planned event is written exactly when it associates or the store does not say it already. */
  lemma ChangedMeansNew(db: Store, a: Attempt, item: EventProposal, r: Reading)
    requires Inv(db) && UniqueMilestones(item.milestones) && |item.milestones| > 0
    requires UniqueStored(r.nodes) && NodesReadable(r.nodes) && (r.event.Some? ==> r.event.value.EventCell?)
    requires PlanMatches(db, PlanEvent(a, item, r))
    ensures Changed(PlanEvent(a, item, r)) <==> Associates(a) || !AlreadySays(db, a, item)
  {
    var p := PlanEvent(a, item, r);
    PlanEventShape(a, item, r);
    EventUnchanged(db, a, item, p);
    OnlyProposedChange(db, a, item, r);
  }

  lemma OnlyProposedChange(db: Store, a: Attempt, item: EventProposal, r: Reading)
    requires Inv(db) && UniqueMilestones(item.milestones) && |item.milestones| > 0
    requires UniqueStored(r.nodes) && NodesReadable(r.nodes) && (r.event.Some? ==> r.event.value.EventCell?)
    requires PlanMatches(db, PlanEvent(a, item, r)) && PlannedShape(PlanEvent(a, item, r))
    ensures var p := PlanEvent(a, item, r);
            (exists k :: 0 <= k < |p.nodes| && ChangeOf(p, p.nodes[k]).changed) <==>
              exists m :: m in item.milestones && !SaysMilestone(db, a, p.id, m)
  {
    var p, ms := PlanEvent(a, item, r), item.milestones;
    if k :| 0 <= k < |p.nodes| && ChangeOf(p, p.nodes[k]).changed {
      assert p.nodes[k] in p.nodes;
      if k < |ms| {
        assert p.nodes[k] == ProposedNode(a, ms[k], r.nodes) && ms[k] in ms;
        NodeUnchanged(db, a, p, ms[k], p.nodes[k]);
      } else {
        assert p.nodes[k] in RetainedNodes(ms, r.nodes);
        KeptNodeUnchanged(p, ms, r.nodes, p.nodes[k]);
      }
    }
    if m :| m in ms && !SaysMilestone(db, a, p.id, m) {
      var j :| 0 <= j < |ms| && ms[j] == m;
      assert p.nodes[j] == ProposedNode(a, m, r.nodes) && p.nodes[j] in p.nodes;
      NodeUnchanged(db, a, p, m, p.nodes[j]);
    }
  }

  predicate SomethingNew(db: Store, a: Attempt)
    requires a.candidate.proposal.Events?
  {
    exists i :: 0 <= i < |a.candidate.proposal.events| &&
      (Associates(a) || !AlreadySays(db, a, a.candidate.proposal.events[i]))
  }

  /** A candidate is published exactly when it passed its review, every event of it may be written by this
      caller, the store is still what the call read, and it does not say all of it already. */
  lemma {:induction false} PublishedExactly(h: seq<Store>, a: Attempt)
    requires ValidRun(h) && AttemptFrom(h, a)
    ensures Publish(a, h[|h| - 1]).0 == Published <==>
              Reviewed(a) && AllAllowed(a) && Current(h[|h| - 1], a) && SomethingNew(h[|h| - 1], a)
  {
    var db := h[|h| - 1];
    RunIsOrdered(h);
    if Publish(a, db).0 == Published {
      PublishIsSerializable(h, a);
      HoldingIsCurrent(h, a);
      DecidedMeansReviewed(a);
      ReadingsAreUnique(h, a);
      ReadyExactly(a);
      NewMeansReady(h, a);
    } else if Reviewed(a) && AllAllowed(a) && Current(db, a) && SomethingNew(db, a) {
      NewMeansReady(h, a);
      CurrentHolds(h, a);
      PublishIsSerializable(h, a);
    }
  }

  lemma {:induction false} NewMeansReady(h: seq<Store>, a: Attempt)
    requires |h| > 0 && Ordered(h) && AllInv(h) && AttemptFrom(h, a)
    requires Reviewed(a) && AllAllowed(a) && Current(h[|h| - 1], a)
    ensures Decide(a).Ready? <==> SomethingNew(h[|h| - 1], a)
  {
    var db, items, readings := h[|h| - 1], a.candidate.proposal.events, a.readings;
    ReadingsAreUnique(h, a);
    ReadyExactly(a);
    CurrentMeansChanged(h, a);
    if SomethingNew(db, a) {
      var i :| 0 <= i < |items| && (Associates(a) || !AlreadySays(db, a, items[i]));
      assert 0 <= i < |readings| && Allowed(a, items[i], readings[i]);
      assert Changed(PlanEvent(a, items[i], readings[i]));
      assert Decide(a).Ready?;
    }
    if Decide(a).Ready? {
      assert forall i :: 0 <= i < |items| ==> Allowed(a, items[i], readings[i]);
      var i :| 0 <= i < |items| && Changed(PlanEvent(a, items[i], readings[i]));
      assert Associates(a) || !AlreadySays(db, a, items[i]);
    }
  }

  lemma {:induction false} CurrentMeansChanged(h: seq<Store>, a: Attempt)
    requires |h| > 0 && Ordered(h) && AllInv(h) && AttemptFrom(h, a)
    requires Reviewed(a) && AllAllowed(a) && Current(h[|h| - 1], a)
    ensures forall i :: 0 <= i < |a.readings| ==>
              (Changed(PlanEvent(a, a.candidate.proposal.events[i], a.readings[i])) <==>
               Associates(a) || !AlreadySays(h[|h| - 1], a, a.candidate.proposal.events[i]))
  {
    var db, items := h[|h| - 1], a.candidate.proposal.events;
    ReadingsAreUnique(h, a);
    forall i | 0 <= i < |a.readings|
      ensures Changed(PlanEvent(a, items[i], a.readings[i])) <==> Associates(a) || !AlreadySays(db, a, items[i])
    {
      CurrentPlanMatches(db, a, items[i], a.readings[i]);
      ChangedMeansNew(db, a, items[i], a.readings[i]);
    }
  }

  lemma CurrentPlanMatches(db: Store, a: Attempt, item: EventProposal, r: Reading)
    requires UniqueMilestones(item.milestones) && UniqueStored(r.nodes) && NodesReadable(r.nodes)
    requires ReadingCurrent(db, TargetOf(a, item), r)
    ensures PlanMatches(db, PlanEvent(a, item, r))
  {
    var p := PlanEvent(a, item, r);
    PlanNodesShape(a, item.milestones, r.nodes);
    forall n | n in p.nodes ensures n.prior == RowAt(db, NodeKey(IdOf(p, n))) { assert FromStored(n, r.nodes); }
    forall key | NodeKey(NodeId(p.id, key)) in db.rows ensures HasKey(p.nodes, key) {
      assert FindNode(r.nodes, key).Some?;
      var k :| 0 <= k < |r.nodes| && r.nodes[k] == StoredNode(key, FindNode(r.nodes, key).value);
      assert r.nodes[k] in r.nodes;
    }
  }

  // ---------------------------------------------------------------- the other answers

  lemma {:induction false} TogetherStops(ds: seq<Decision>)
    requires !Together(ds).Ready?
    ensures exists i :: 0 <= i < |ds| && ds[i] == Together(ds)
  {
    var n := |ds| - 1;
    if Together(ds[..n]).Ready? {
      assert ds[n] == Together(ds);
    } else {
      TogetherStops(ds[..n]);
      var i :| 0 <= i < n && ds[..n][i] == Together(ds[..n]);
      assert ds[i] == Together(ds);
    }
  }

  lemma LockedMeansLock(a: Attempt, item: EventProposal, r: Reading)
    requires UniqueMilestones(item.milestones) && UniqueStored(r.nodes) && PlanOne(a, item, r) == Locked
    ensures a.manual.None? && AnyLock(r)
  {
    ProposedPriors(a, item.milestones, r.nodes);
  }

  lemma StoppedBy(a: Attempt)
    requires Reviewed(a) && !PlanItems(a, a.candidate.proposal.events, a.readings).Ready?
    ensures exists i :: 0 <= i < |a.readings| &&
              PlanOne(a, a.candidate.proposal.events[i], a.readings[i]) ==
                PlanItems(a, a.candidate.proposal.events, a.readings)
  {
    var ds := ItemDecisions(a, a.candidate.proposal.events, a.readings);
    TogetherStops(ds);
    var i :| 0 <= i < |ds| && ds[i] == Together(ds);
    assert ds[i] == PlanOne(a, a.candidate.proposal.events[i], a.readings[i]);
  }

  predicate ReachedBefore(a: Attempt) {
    a.candidate.run.Some? && exists i :: 0 <= i < |a.readings| && a.readings[i].event.Some? && a.readings[i].associated
  }

  /** What every other answer means: nobody else's change is overwritten, a lock stops only those who are not
      administrators, and what is called unchanged has nothing left to publish. */
  lemma {:induction false} AnswersAreExplained(h: seq<Store>, a: Attempt)
    requires ValidRun(h) && AttemptFrom(h, a)
    ensures var answer := Publish(a, h[|h| - 1]).0;
            && answer != Failed
            && (answer == ConditionMissed ==> Reviewed(a) && AllAllowed(a) && !Current(h[|h| - 1], a))
            && (answer == NotPublished(Missed) <==>
                  a.expectedUpdatedAt.Some? && a.candidate.updatedAt != a.expectedUpdatedAt.value)
            && (answer == NotPublished(Stale) ==> a.newer)
            && (answer == NotPublished(Locked) ==>
                  a.manual.None? && exists i :: 0 <= i < |a.readings| && AnyLock(a.readings[i]))
            && (answer == NotPublished(Unchanged) ==>
                  || a.linked || a.candidate.proposal.NoEvents? || ReachedBefore(a)
                  || (Reviewed(a) && AllAllowed(a)))
  {
    RunIsOrdered(h);
    if a.candidate.proposal.Events? && |a.candidate.proposal.events| == |a.readings| { ReadingsAreUnique(h, a); }
    if Decide(a).Ready? {
      PublishIsSerializable(h, a);
      DecidedMeansReviewed(a);
      ReadingsAreUnique(h, a);
      ReadyExactly(a);
      if Current(h[|h| - 1], a) { CurrentHolds(h, a); }
    } else {
      RefusalIsExplained(a);
    }
  }

  lemma RefusalIsExplained(a: Attempt)
    requires !Decide(a).Ready?
    requires a.candidate.proposal.Events? && |a.candidate.proposal.events| == |a.readings| ==> UniqueReadings(a)
    ensures Decide(a) == Missed <==> a.expectedUpdatedAt.Some? && a.candidate.updatedAt != a.expectedUpdatedAt.value
    ensures Decide(a) == Stale ==> a.newer
    ensures Decide(a) == Locked ==> a.manual.None? && exists i :: 0 <= i < |a.readings| && AnyLock(a.readings[i])
    ensures Decide(a) == Unchanged ==>
              a.linked || a.candidate.proposal.NoEvents? || ReachedBefore(a) || (Reviewed(a) && AllAllowed(a))
  {
    if Reviewed(a) { ReviewedRefusal(a); }
  }

  lemma ReviewedRefusal(a: Attempt)
    requires Reviewed(a) && !Decide(a).Ready? && UniqueReadings(a)
    ensures Decide(a) in {Refused, Unchanged, Locked}
    ensures Decide(a) == Locked ==> a.manual.None? && exists i :: 0 <= i < |a.readings| && AnyLock(a.readings[i])
    ensures Decide(a) == Unchanged ==> ReachedBefore(a) || AllAllowed(a)
  {
    ReviewedMeansPlanned(a);
    if PlanItems(a, a.candidate.proposal.events, a.readings).Ready? {
      ItemsReady(a);
      PlannedEach(a);
      SamePlans(a, PlanItems(a, a.candidate.proposal.events, a.readings).planned);
    } else {
      StoppedBy(a);
      var i :| 0 <= i < |a.readings| && PlanOne(a, a.candidate.proposal.events[i], a.readings[i]) ==
                PlanItems(a, a.candidate.proposal.events, a.readings);
      if Decide(a) == Locked { LockedMeansLock(a, a.candidate.proposal.events[i], a.readings[i]); }
    }
  }
}
