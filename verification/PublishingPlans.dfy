/** What a plan contains: one write per row, every stored milestone accounted for. */
module PublishingPlans {
  import opened Wrappers
  import opened Time
  import opened Changes
  import opened FactStore
  import opened Publishing

  // ---------------------------------------------------------------- planned nodes

  predicate UniqueStored(nodes: seq<StoredNode>) {
    forall i, j :: 0 <= i < j < |nodes| ==> nodes[i].key != nodes[j].key
  }

  predicate UniquePlanned(ns: seq<PlannedNode>) {
    forall i, j :: 0 <= i < j < |ns| ==> ns[i].facts.key != ns[j].facts.key
  }

  lemma {:induction false} FindNodeFinds(nodes: seq<StoredNode>, i: nat)
    requires UniqueStored(nodes) && i < |nodes|
    ensures FindNode(nodes, nodes[i].key) == Some(nodes[i].cell)
  {
    if i < |nodes| - 1 { FindNodeFinds(nodes[..|nodes| - 1], i); }
  }

  predicate FromStored(n: PlannedNode, stored: seq<StoredNode>) {
    n.prior == FindNode(stored, n.facts.key)
  }

  predicate KeptFrom(n: PlannedNode, ms: seq<MilestoneProposal>, stored: StoredNode) {
    n.facts.key == stored.key && n.prior == Some(stored.cell) && !Mentioned(ms, stored.key)
  }

  lemma {:induction false} RetainedAreStored(ms: seq<MilestoneProposal>, stored: seq<StoredNode>)
    requires UniqueStored(stored) && NodesReadable(stored)
    ensures UniquePlanned(RetainedNodes(ms, stored))
    ensures forall n :: n in RetainedNodes(ms, stored) ==> exists j :: 0 <= j < |stored| && KeptFrom(n, ms, stored[j])
  {
    if stored != [] {
      var k := |stored| - 1;
      var init, last := stored[..k], stored[k];
      RetainedAreStored(ms, init);
      var before, r := RetainedNodes(ms, init), RetainedNodes(ms, stored);
      forall n | n in before
        ensures exists j :: 0 <= j < |stored| && KeptFrom(n, ms, stored[j])
        ensures n.facts.key != last.key
      {
        var j :| 0 <= j < |init| && KeptFrom(n, ms, init[j]);
        assert KeptFrom(n, ms, stored[j]);
      }
      if !Mentioned(ms, last.key) {
        var kept := PlannedNode(Some(last.cell), FactsOf(last), None);
        assert r == before + [kept] && KeptFrom(kept, ms, stored[k]);
        forall i, j | 0 <= i < j < |r| ensures r[i].facts.key != r[j].facts.key {
          if j == |r| - 1 { assert r[i] in before; }
        }
      }
    }
  }

  lemma {:induction false} StoredAreRetained(ms: seq<MilestoneProposal>, stored: seq<StoredNode>)
    requires NodesReadable(stored)
    ensures forall s :: s in stored && !Mentioned(ms, s.key) ==>
              PlannedNode(Some(s.cell), FactsOf(s), None) in RetainedNodes(ms, stored)
  {
    if stored != [] {
      StoredAreRetained(ms, stored[..|stored| - 1]);
      assert stored == stored[..|stored| - 1] + [stored[|stored| - 1]];
    }
  }

  predicate HasKey(ns: seq<PlannedNode>, key: string) {
    exists i :: 0 <= i < |ns| && ns[i].facts.key == key
  }

  lemma PlanNodesUnique(a: Attempt, ms: seq<MilestoneProposal>, stored: seq<StoredNode>)
    requires UniqueMilestones(ms) && UniqueStored(stored) && NodesReadable(stored)
    ensures UniquePlanned(PlanNodes(a, ms, stored))
  {
    var ns := PlanNodes(a, ms, stored);
    var p, r := ProposedNodes(a, ms, stored), RetainedNodes(ms, stored);
    RetainedAreStored(ms, stored);
    forall i, j | 0 <= i < j < |ns| ensures ns[i].facts.key != ns[j].facts.key {
      if j < |p| {
        assert ms[i].key != ms[j].key;
      } else if i < |p| {
        assert r[j - |p|] in r;
        var k :| 0 <= k < |stored| && KeptFrom(r[j - |p|], ms, stored[k]);
        assert ms[i].key != stored[k].key;
      } else {
        assert r[i - |p|].facts.key != r[j - |p|].facts.key;
      }
    }
  }

  /** Each key once, each stored milestone present, each node paired with the row it was read from. */
  lemma PlanNodesShape(a: Attempt, ms: seq<MilestoneProposal>, stored: seq<StoredNode>)
    requires UniqueMilestones(ms) && UniqueStored(stored) && NodesReadable(stored)
    ensures UniquePlanned(PlanNodes(a, ms, stored))
    ensures forall n :: n in PlanNodes(a, ms, stored) ==> FromStored(n, stored)
    ensures forall s :: s in stored ==> HasKey(PlanNodes(a, ms, stored), s.key)
  {
    var ns := PlanNodes(a, ms, stored);
    var p, r := ProposedNodes(a, ms, stored), RetainedNodes(ms, stored);
    PlanNodesUnique(a, ms, stored);
    RetainedAreStored(ms, stored);
    forall n | n in ns ensures FromStored(n, stored) {
      if n !in p {
        var j :| 0 <= j < |stored| && KeptFrom(n, ms, stored[j]);
        FindNodeFinds(stored, j);
      }
    }
    StoredAreRetained(ms, stored);
    forall s | s in stored ensures HasKey(ns, s.key) {
      if Mentioned(ms, s.key) {
        var i :| 0 <= i < |ms| && ms[i].key == s.key;
        assert ns[i] == p[i];
      } else {
        var kept := PlannedNode(Some(s.cell), FactsOf(s), None);
        assert kept in ns;
        var i :| 0 <= i < |ns| && ns[i] == kept;
        assert ns[i].facts.key == s.key;
      }
    }
  }

  function PriorFacts(n: PlannedNode): Option<NodeFacts> {
    if n.prior.Some? && n.prior.value.NodeCell? && Readable(n.prior.value.time)
    then Some(FactsOf(StoredNode(n.facts.key, n.prior.value))) else None
  }

  /** The revision decision of a planned event, restated on the planned event alone. */
  predicate PlannedShape(p: PlannedEvent) {
    && |p.nodes| > 0
    && UniquePlanned(p.nodes)
    && (p.prior.Some? ==> p.prior.value.EventCell?)
    && (forall i :: 0 <= i < |p.nodes| ==> NodeShape(p, p.nodes[i]))
    && (p.change.eventRevision <==>
        EventPublicChanged(EventFactsOf(p.prior), p.facts) || LockChanged(EventFactsOf(p.prior), p.facts)
        || exists i :: 0 <= i < |p.nodes| && ChangeOf(p, p.nodes[i]).changed)
    && (p.change.scheduleRevision <==>
        p.prior.None? || exists i :: 0 <= i < |p.nodes| && ChangeOf(p, p.nodes[i]).scheduleChanged)
  }

  predicate NodeShape(p: PlannedEvent, n: PlannedNode) {
    && (n.prior.Some? ==> n.prior.value.NodeCell? && Readable(n.prior.value.time))
    && ChangeOf(p, n) == ClassifyNode(EventFactsOf(p.prior), p.facts, PriorFacts(n), n.facts)
  }

  lemma LookupIsPrior(stored: seq<StoredNode>, n: PlannedNode)
    requires UniqueStored(stored) && NodesReadable(stored) && FromStored(n, stored)
    ensures n.prior.Some? ==> n.prior.value.NodeCell? && Readable(n.prior.value.time)
    ensures Lookup(ByKey(AllFacts(stored)), n.facts.key) == PriorFacts(n)
  {
    var fs := AllFacts(stored);
    forall i, j | 0 <= i < j < |fs| ensures fs[i].key != fs[j].key {
      assert stored[i].key != stored[j].key;
    }
    ByKeyFinds(fs, n.facts.key);
    if n.prior.Some? {
      var i :| 0 <= i < |stored| && stored[i] == StoredNode(n.facts.key, n.prior.value);
      assert fs[i] == FactsOf(stored[i]);
    }
  }

  lemma PlanEventShape(a: Attempt, item: EventProposal, r: Reading)
    requires UniqueMilestones(item.milestones) && |item.milestones| > 0
    requires UniqueStored(r.nodes) && NodesReadable(r.nodes)
    requires r.event.Some? ==> r.event.value.EventCell?
    ensures PlannedShape(PlanEvent(a, item, r))
  {
    var p := PlanEvent(a, item, r);
    var prior := ByKey(AllFacts(r.nodes));
    var next := NextFacts(p.nodes);
    PlanNodesShape(a, item.milestones, r.nodes);
    assert UniqueKeys(next) by {
      forall i, j | 0 <= i < j < |next| ensures next[i].key != next[j].key {
        assert p.nodes[i].facts.key != p.nodes[j].facts.key;
      }
    }
    forall i | 0 <= i < |p.nodes|
      ensures NodeShape(p, p.nodes[i])
      ensures ChangeOf(p, p.nodes[i]) ==
          ClassifyNode(EventFactsOf(p.prior), p.facts, Lookup(prior, next[i].key), next[i])
    {
      assert p.nodes[i] in p.nodes;
      LookupIsPrior(r.nodes, p.nodes[i]);
      NodeChangesAt(EventFactsOf(p.prior), p.facts, prior, next, i);
    }
  }

  /** One item planned without refusal. */
  predicate PlannedAs(a: Attempt, item: EventProposal, r: Reading, p: PlannedEvent) {
    && PlanOne(a, item, r) == Ready([p])
    && NodesReadable(r.nodes) && p == PlanEvent(a, item, r)
    && (r.event.Some? ==> r.event.value.EventCell?)
  }

  lemma PlanOneShape(a: Attempt, item: EventProposal, r: Reading)
    requires PlanOne(a, item, r).Ready?
    ensures |PlanOne(a, item, r).planned| == 1 && PlannedAs(a, item, r, PlanOne(a, item, r).planned[0])
  {
  }

  lemma {:induction false} TogetherIsEach(ds: seq<Decision>)
    requires Together(ds).Ready?
    requires forall i :: 0 <= i < |ds| ==> ds[i].Ready? ==> |ds[i].planned| == 1
    ensures |Together(ds).planned| == |ds|
    ensures forall i :: 0 <= i < |ds| ==> ds[i] == Ready([Together(ds).planned[i]])
  {
    if ds != [] {
      var n := |ds| - 1;
      TogetherIsEach(ds[..n]);
      assert forall i :: 0 <= i < n ==> ds[i] == ds[..n][i];
    }
  }

  lemma PlanItemsShape(a: Attempt, items: seq<EventProposal>, readings: seq<Reading>)
    requires |items| == |readings| && PlanItems(a, items, readings).Ready?
    ensures var planned := PlanItems(a, items, readings).planned;
            |planned| == |items| && forall i :: 0 <= i < |items| ==> PlannedAs(a, items[i], readings[i], planned[i])
  {
    var ds := ItemDecisions(a, items, readings);
    forall i | 0 <= i < |ds| && ds[i].Ready? ensures |ds[i].planned| == 1 { PlanOneShape(a, items[i], readings[i]); }
    TogetherIsEach(ds);
    forall i | 0 <= i < |items| ensures PlannedAs(a, items[i], readings[i], Together(ds).planned[i]) {
      PlanOneShape(a, items[i], readings[i]);
    }
  }

  // ---------------------------------------------------------------- which rows a plan writes

  lemma {:induction false} NodeWritesMembers(p: PlannedEvent, ns: seq<PlannedNode>)
    ensures forall w :: w in NodeWrites(p, ns) ==> exists i :: 0 <= i < |ns| && w in NodeWrite(p, ns[i])
    ensures forall i :: 0 <= i < |ns| ==> forall w :: w in NodeWrite(p, ns[i]) ==> w in NodeWrites(p, ns)
  {
    if ns != [] {
      var k := |ns| - 1;
      NodeWritesMembers(p, ns[..k]);
      forall w | w in NodeWrites(p, ns) ensures exists i :: 0 <= i < |ns| && w in NodeWrite(p, ns[i]) {
        if w in NodeWrite(p, ns[k]) {
        } else {
          assert w in NodeWrites(p, ns[..k]);
          var i :| 0 <= i < |ns[..k]| && w in NodeWrite(p, ns[..k][i]);
          assert w in NodeWrite(p, ns[i]);
        }
      }
      forall i | 0 <= i < |ns| ensures forall w :: w in NodeWrite(p, ns[i]) ==> w in NodeWrites(p, ns) {
        if i < k { assert ns[..k][i] == ns[i]; }
      }
    }
  }

  lemma {:induction false} ProjectionWritesMembers(p: PlannedEvent, ns: seq<PlannedNode>)
    ensures forall w :: w in ProjectionWrites(p, ns) ==> exists i :: 0 <= i < |ns| && w in ProjectionWrite(p, ns[i])
    ensures forall i :: 0 <= i < |ns| ==> forall w :: w in ProjectionWrite(p, ns[i]) ==> w in ProjectionWrites(p, ns)
  {
    if ns != [] {
      var k := |ns| - 1;
      ProjectionWritesMembers(p, ns[..k]);
      forall w | w in ProjectionWrites(p, ns) ensures exists i :: 0 <= i < |ns| && w in ProjectionWrite(p, ns[i]) {
        if w in ProjectionWrite(p, ns[k]) {
        } else {
          assert w in ProjectionWrites(p, ns[..k]);
          var i :| 0 <= i < |ns[..k]| && w in ProjectionWrite(p, ns[..k][i]);
          assert w in ProjectionWrite(p, ns[i]);
        }
      }
      forall i | 0 <= i < |ns| ensures forall w :: w in ProjectionWrite(p, ns[i]) ==> w in ProjectionWrites(p, ns) {
        if i < k { assert ns[..k][i] == ns[i]; }
      }
    }
  }

  lemma {:induction false} NodeWritesDistinct(p: PlannedEvent, ns: seq<PlannedNode>)
    requires UniquePlanned(ns)
    ensures DistinctKeys(NodeWrites(p, ns))
  {
    if ns != [] {
      var k := |ns| - 1;
      NodeWritesDistinct(p, ns[..k]);
      NodeWritesMembers(p, ns[..k]);
      forall x, y | x in NodeWrites(p, ns[..k]) && y in NodeWrite(p, ns[k]) ensures x.key != y.key {
        var i :| 0 <= i < k && x in NodeWrite(p, ns[..k][i]);
        assert ns[i].facts.key != ns[k].facts.key;
      }
      DistinctConcat(NodeWrites(p, ns[..k]), NodeWrite(p, ns[k]));
    }
  }

  lemma {:induction false} ProjectionWritesDistinct(p: PlannedEvent, ns: seq<PlannedNode>)
    requires UniquePlanned(ns)
    ensures DistinctKeys(ProjectionWrites(p, ns))
  {
    if ns != [] {
      var k := |ns| - 1;
      ProjectionWritesDistinct(p, ns[..k]);
      ProjectionWritesMembers(p, ns[..k]);
      forall x, y | x in ProjectionWrites(p, ns[..k]) && y in ProjectionWrite(p, ns[k]) ensures x.key != y.key {
        var i :| 0 <= i < k && x in ProjectionWrite(p, ns[..k][i]);
        assert ns[i].facts.key != ns[k].facts.key;
      }
      DistinctConcat(ProjectionWrites(p, ns[..k]), ProjectionWrite(p, ns[k]));
    }
  }

  lemma {:induction false} EvidenceOnly(a: Attempt, p: PlannedEvent, ns: seq<PlannedNode>)
    ensures forall w :: w in NodeEvidence(a, p, ns) ==>
              w.AddEvidence? && w.evidence.candidate == a.candidateId && w.evidence.event == Some(p.id)
                && w.evidence.articleVersion == a.article.version
  {
    if ns != [] { EvidenceOnly(a, p, ns[..|ns| - 1]); }
  }

  /** The forms a write of one event takes. */
  predicate WriteForm(a: Attempt, p: PlannedEvent, w: Write) {
    || w == EventWrite(a, p)
    || (exists i :: 0 <= i < |p.nodes| && w in NodeWrite(p, p.nodes[i]))
    || (exists i :: 0 <= i < |p.nodes| && w in ProjectionWrite(p, p.nodes[i]))
    || w in Records(p)
    || (w.AddEvidence? && w.evidence.candidate == a.candidateId && w.evidence.event == Some(p.id)
        && w.evidence.articleVersion == a.article.version)
  }

  lemma EventWritesForms(a: Attempt, p: PlannedEvent)
    ensures forall w :: w in EventWrites(a, p) ==> WriteForm(a, p, w)
    ensures EventWrite(a, p) in EventWrites(a, p)
    ensures forall w :: w in Records(p) ==> w in EventWrites(a, p)
    ensures forall i :: 0 <= i < |p.nodes| ==> forall w :: w in NodeWrite(p, p.nodes[i]) ==> w in EventWrites(a, p)
    ensures forall i :: 0 <= i < |p.nodes| ==> forall w :: w in ProjectionWrite(p, p.nodes[i]) ==>
        w in EventWrites(a, p)
  {
    NodeWritesMembers(p, p.nodes);
    ProjectionWritesMembers(p, p.nodes);
    EvidenceOnly(a, p, p.nodes);
  }

  lemma EventEvidenceIsWritten(a: Attempt, p: PlannedEvent)
    ensures AddEvidence(Evidence(a.candidateId, Some(p.id), None, a.article.version, p.typeRef)) in EventWrites(a, p)
  {
    assert AddEvidence(Evidence(a.candidateId, Some(p.id), None, a.article.version, p.typeRef)) in EventEvidence(a, p);
  }

  /** The event a row belongs to. */
  function Owner(k: Key): Option<string> {
    match k
    case EventKey(e) => Some(e)
    case NodeKey(n) => Some(n.event)
    case ProjectionKey(n) => Some(n.event)
    case RevisionKey(e, _) => Some(e)
    case OutboxKey(d) => if d.Notice? then Some(d.event) else None
    case PendingKey => None
  }

  lemma EventWritesOwned(a: Attempt, p: PlannedEvent)
    ensures forall w :: w in EventWrites(a, p) && !w.AddEvidence? ==> Owner(w.key) == Some(p.id)
  {
    EventWritesForms(a, p);
  }

  /** The part of an event's writes that touches the event and milestone tables, then evidence. */
  function Front(a: Attempt, p: PlannedEvent): seq<Write> {
    [EventWrite(a, p)] + NodeWrites(p, p.nodes) + EventEvidence(a, p) + NodeEvidence(a, p, p.nodes)
  }

  lemma FrontDistinct(a: Attempt, p: PlannedEvent)
    requires UniquePlanned(p.nodes)
    ensures DistinctKeys(Front(a, p))
    ensures forall w :: w in Front(a, p) && !w.AddEvidence? ==> w.key.EventKey? || w.key.NodeKey?
  {
    NodeWritesDistinct(p, p.nodes);
    NodeWritesMembers(p, p.nodes);
    EvidenceOnly(a, p, p.nodes);
    var w0, w1, w2 := [EventWrite(a, p)], NodeWrites(p, p.nodes), EventEvidence(a, p);
    assert forall w :: w in w1 ==> w.key.NodeKey?;
    DistinctConcat(w0, w1);
    DistinctConcat(w0 + w1, w2);
    DistinctConcat(w0 + w1 + w2, NodeEvidence(a, p, p.nodes));
  }

  lemma EventWritesDistinct(a: Attempt, p: PlannedEvent)
    requires UniquePlanned(p.nodes)
    ensures DistinctKeys(EventWrites(a, p))
  {
    FrontDistinct(a, p);
    ProjectionWritesDistinct(p, p.nodes);
    var front, records, projections := Front(a, p), Records(p), ProjectionWrites(p, p.nodes);
    ProjectionKeys(p);
    assert forall w :: w in records ==> w.key.RevisionKey? || w.key.OutboxKey?;
    DistinctConcat(front, records);
    DistinctConcat(front + records, projections);
    assert EventWrites(a, p) == front + records + projections;
  }

  lemma ProjectionKeys(p: PlannedEvent)
    ensures forall w :: w in ProjectionWrites(p, p.nodes) ==> !w.AddEvidence? && w.key.ProjectionKey?
  {
    ProjectionWritesMembers(p, p.nodes);
    forall w | w in ProjectionWrites(p, p.nodes) ensures !w.AddEvidence? && w.key.ProjectionKey? {
      var i :| 0 <= i < |p.nodes| && w in ProjectionWrite(p, p.nodes[i]);
    }
  }

  lemma {:induction false} WrittenBySome(a: Attempt, planned: seq<PlannedEvent>, w: Write)
    requires w in AllEventWrites(a, planned)
    ensures exists i :: 0 <= i < |planned| && Changed(planned[i]) && w in EventWrites(a, planned[i])
  {
    var k := |planned| - 1;
    if w in AllEventWrites(a, planned[..k]) {
      WrittenBySome(a, planned[..k], w);
      var i :| 0 <= i < k && Changed(planned[..k][i]) && w in EventWrites(a, planned[..k][i]);
      assert w in EventWrites(a, planned[i]);
    } else {
      assert w in EventWrites(a, planned[k]);
    }
  }

  lemma {:induction false} WritesOfOne(a: Attempt, planned: seq<PlannedEvent>, i: nat, w: Write)
    requires i < |planned| && Changed(planned[i]) && w in EventWrites(a, planned[i])
    ensures w in AllEventWrites(a, planned)
  {
    var k := |planned| - 1;
    var earlier := AllEventWrites(a, planned[..k]);
    if i < k {
      assert planned[..k][i] == planned[i];
      WritesOfOne(a, planned[..k], i, w);
      assert w in earlier;
    } else {
      assert AllEventWrites(a, planned) == earlier + EventWrites(a, planned[k]);
    }
  }

  lemma AllEventWritesMembers(a: Attempt, planned: seq<PlannedEvent>)
    ensures forall w :: w in AllEventWrites(a, planned) ==>
              exists i :: 0 <= i < |planned| && Changed(planned[i]) && w in EventWrites(a, planned[i])
    ensures forall i :: 0 <= i < |planned| && Changed(planned[i]) ==>
              forall w :: w in EventWrites(a, planned[i]) ==> w in AllEventWrites(a, planned)
  {
    forall w | w in AllEventWrites(a, planned)
      ensures exists i :: 0 <= i < |planned| && Changed(planned[i]) && w in EventWrites(a, planned[i])
    {
      WrittenBySome(a, planned, w);
    }
    forall i, w | 0 <= i < |planned| && Changed(planned[i]) && w in EventWrites(a, planned[i])
      ensures w in AllEventWrites(a, planned)
    {
      WritesOfOne(a, planned, i, w);
    }
  }

  lemma {:induction false} AllEventWritesDistinct(a: Attempt, planned: seq<PlannedEvent>)
    requires DistinctIds(planned)
    requires forall i :: 0 <= i < |planned| ==> UniquePlanned(planned[i].nodes)
    ensures DistinctKeys(AllEventWrites(a, planned))
  {
    if planned != [] {
      var k := |planned| - 1;
      AllEventWritesDistinct(a, planned[..k]);
      if Changed(planned[k]) {
        EventWritesDistinct(a, planned[k]);
        AllEventWritesMembers(a, planned[..k]);
        EventWritesOwned(a, planned[k]);
        forall x, y | x in AllEventWrites(a, planned[..k]) && y in EventWrites(a, planned[k])
          && !x.AddEvidence? && !y.AddEvidence?
          ensures x.key != y.key
        {
          var i :| 0 <= i < k && Changed(planned[..k][i]) && x in EventWrites(a, planned[..k][i]);
          EventWritesOwned(a, planned[i]);
          assert planned[i].id != planned[k].id;
        }
        DistinctConcat(AllEventWrites(a, planned[..k]), EventWrites(a, planned[k]));
      } else {
        assert AllEventWrites(a, planned) == AllEventWrites(a, planned[..k]);
      }
    }
  }

  lemma WritesDistinct(a: Attempt, planned: seq<PlannedEvent>)
    requires DistinctIds(planned)
    requires forall i :: 0 <= i < |planned| ==> UniquePlanned(planned[i].nodes)
    ensures DistinctKeys(Writes(a, planned))
  {
    AllEventWritesDistinct(a, planned);
    AllEventWritesOwned(a, planned);
    assert forall y :: y in PendingWrites(a) ==> Owner(y.key).None?;
    DistinctConcat(AllEventWrites(a, planned), PendingWrites(a));
  }

  lemma AllEventWritesOwned(a: Attempt, planned: seq<PlannedEvent>)
    ensures forall x :: x in AllEventWrites(a, planned) && !x.AddEvidence? ==> Owner(x.key).Some?
  {
    AllEventWritesMembers(a, planned);
    forall x | x in AllEventWrites(a, planned) && !x.AddEvidence? ensures Owner(x.key).Some? {
      var i :| 0 <= i < |planned| && Changed(planned[i]) && x in EventWrites(a, planned[i]);
      EventWritesOwned(a, planned[i]);
    }
  }
}
