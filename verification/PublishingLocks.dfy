/** Facts entered by hand: which locks a publication sets, and what a lock protects over whole runs. */
module PublishingLocks {
  import opened Wrappers
  import opened Changes
  import opened FactStore
  import opened Publishing
  import opened PublishingPlans
  import opened PublishingRuns
  import opened PublishingOutcomes

  predicate EventLocked(db: Store, e: string) {
    EventKey(e) in db.rows && db.rows[EventKey(e)].EventCell? && db.rows[EventKey(e)].facts.locked
  }

  predicate NodeLocked(db: Store, n: NodeId) {
    NodeKey(n) in db.rows && db.rows[NodeKey(n)].NodeCell? && db.rows[NodeKey(n)].locked
  }

  /** A correction by an administrator, or a candidate no extraction produced. */
  predicate EnteredByHand(a: Attempt) { a.manual.Some? || a.candidate.run.None? }

  // ---------------------------------------------------------------- one publication

  /** A publication by hand locks every event and milestone it proposes; any other one leaves each lock as
      it was stored and locks nothing new. */
  lemma {:induction false} HandPublicationsLock(h: seq<Store>, a: Attempt, db': Store, i: nat)
    requires ValidRun(h) && AttemptFrom(h, a) && Publish(a, h[|h| - 1]) == (Published, db')
    requires a.candidate.proposal.Events? && i < |a.candidate.proposal.events|
    ensures var db, item := h[|h| - 1], a.candidate.proposal.events[i];
            var e := TargetOf(a, item);
            && EventLocked(db', e) == (EnteredByHand(a) || EventLocked(db, e))
            && forall m :: m in item.milestones ==>
                 NodeLocked(db', NodeId(e, m.key)) == (EnteredByHand(a) || NodeLocked(db, NodeId(e, m.key)))
  {
    var db, item := h[|h| - 1], a.candidate.proposal.events[i];
    RunIsOrdered(h);
    PublishedMeansReady(db, a, db');
    DecisionShape(a);
    PlannedIsCurrent(h, a, db', i);
    PlanIsStored(h, a, db', i);
    PlannedFacts(h, a, i);
    var p := Decide(a).planned[i];
    forall m | m in item.milestones
      ensures NodeLocked(db', NodeId(p.id, m.key)) == (EnteredByHand(a) || NodeLocked(db, NodeId(p.id, m.key)))
    {
      ProposedLock(db, a, item, a.readings[i].nodes, p, db', m);
    }
  }

  lemma ProposedLock(
      db: Store, a: Attempt, item: EventProposal, stored: seq<StoredNode>, p: PlannedEvent, db': Store,
      m: MilestoneProposal)
    requires NodesReadable(stored) && p.nodes == PlanNodes(a, item.milestones, stored) && m in item.milestones
    requires PlanMatches(db, p) && forall n :: n in p.nodes ==> StoresNode(db', IdOf(p, n), n.facts)
    ensures NodeLocked(db', NodeId(p.id, m.key)) == (EnteredByHand(a) || NodeLocked(db, NodeId(p.id, m.key)))
  {
    var j :| 0 <= j < |item.milestones| && item.milestones[j] == m;
    var n := ProposedNode(a, m, stored);
    assert p.nodes[j] == n;
    assert n in p.nodes && StoresNode(db', IdOf(p, n), n.facts);
  }

  // ---------------------------------------------------------------- no lock is ever lifted

  ghost predicate LocksKept(a: Store, b: Store) {
    && (forall e :: EventLocked(a, e) ==> EventLocked(b, e))
    && (forall n :: NodeLocked(a, n) ==> NodeLocked(b, n))
  }

  lemma PlannedLocks(a: Attempt, item: EventProposal, r: Reading)
    requires UniqueStored(r.nodes) && NodesReadable(r.nodes)
    ensures WasLocked(r.event) ==> PlanEvent(a, item, r).facts.locked
    ensures forall n :: n in PlanEvent(a, item, r).nodes && WasLocked(n.prior) ==> n.facts.locked
  {
    var nodes := PlanNodes(a, item.milestones, r.nodes);
    forall n | n in nodes && WasLocked(n.prior) ensures n.facts.locked {
      if n !in ProposedNodes(a, item.milestones, r.nodes) {
        RetainedExactly(item.milestones, r.nodes, n);
      }
    }
  }

  lemma {:induction false} PublishKeepsLocks(h: seq<Store>, a: Attempt, db': Store)
    requires |h| > 0 && Ordered(h) && AllInv(h) && AttemptFrom(h, a)
    requires Publish(a, h[|h| - 1]) == (Published, db')
    ensures LocksKept(h[|h| - 1], db')
  {
    var db := h[|h| - 1];
    PublishedMeansReady(db, a, db');
    forall e | EventLocked(db, e) ensures EventLocked(db', e) { EventLockKept(h, a, db', e); }
    forall n | NodeLocked(db, n) ensures NodeLocked(db', n) { NodeLockKept(h, a, db', n); }
  }

  lemma {:induction false} EventLockKept(h: seq<Store>, a: Attempt, db': Store, e: string)
    requires |h| > 0 && Ordered(h) && AllInv(h) && AttemptFrom(h, a) && Decide(a).Ready?
    requires Publish(a, h[|h| - 1]) == (Published, db') && EventLocked(h[|h| - 1], e)
    ensures EventLocked(db', e)
  {
    var db, planned := h[|h| - 1], Decide(a).planned;
    PublishIsSerializable(h, a);
    if ChangedId(planned, e) {
      var i :| 0 <= i < |planned| && Changed(planned[i]) && planned[i].id == e;
      LockFacts(h, a, db', i);
    } else {
      UntouchedEvent(db, a, planned, EventKey(e));
    }
  }

  lemma {:induction false} NodeLockKept(h: seq<Store>, a: Attempt, db': Store, n: NodeId)
    requires |h| > 0 && Ordered(h) && AllInv(h) && AttemptFrom(h, a) && Decide(a).Ready?
    requires Publish(a, h[|h| - 1]) == (Published, db') && NodeLocked(h[|h| - 1], n)
    ensures NodeLocked(db', n)
  {
    var db, planned := h[|h| - 1], Decide(a).planned;
    PublishIsSerializable(h, a);
    if ChangedId(planned, n.event) {
      var i, m := PlannedNodeOf(db, a, planned, db', n);
      LockFacts(h, a, db', i);
      assert StoresNode(db', IdOf(planned[i], m), m.facts);
    } else {
      UntouchedEvent(db, a, planned, NodeKey(n));
    }
  }

  /** What one planned event says about its locks, against the rows stored before and after. */
  lemma {:induction false} LockFacts(h: seq<Store>, a: Attempt, db': Store, i: nat)
    requires |h| > 0 && Ordered(h) && AllInv(h) && AttemptFrom(h, a)
    requires Publish(a, h[|h| - 1]) == (Published, db') && Decide(a).Ready? && i < |Decide(a).planned|
    ensures var p := Decide(a).planned[i];
            && PlanMatches(h[|h| - 1], p)
            && StoresEvent(db', p.id, p.facts) && (forall n :: n in p.nodes ==> StoresNode(db', IdOf(p, n), n.facts))
            && (WasLocked(p.prior) ==> p.facts.locked)
            && (forall n :: n in p.nodes && WasLocked(n.prior) ==> n.facts.locked)
  {
    DecisionShape(a);
    PlannedFrom(h, a, i);
    PlannedIsCurrent(h, a, db', i);
    PlanIsStored(h, a, db', i);
    PlannedFacts(h, a, i);
    PlannedLocks(a, a.candidate.proposal.events[i], a.readings[i]);
  }

  /** A call that does not publish changes nothing. */
  lemma {:induction false} UnpublishedChangesNothing(h: seq<Store>, a: Attempt)
    requires |h| > 0 && Ordered(h) && AllInv(h) && AttemptFrom(h, a)
    ensures Publish(a, h[|h| - 1]).0 != Published ==> Publish(a, h[|h| - 1]).1 == h[|h| - 1]
  {
    if Decide(a).Ready? { PublishIsSerializable(h, a); }
  }

  lemma {:induction false} StepKeepsLocks(past: seq<Store>, next: Store)
    requires |past| > 0 && Ordered(past) && AllInv(past) && Step(past, next)
    ensures LocksKept(past[|past| - 1], next)
  {
    var db := past[|past| - 1];
    if OtherWriter(db, next) {
      forall e | EventLocked(db, e) ensures EventLocked(next, e) {
        assert RowAt(db, EventKey(e)) == RowAt(next, EventKey(e));
      }
      forall n | NodeLocked(db, n) ensures NodeLocked(next, n) {
        assert RowAt(db, NodeKey(n)) == RowAt(next, NodeKey(n));
      }
    } else {
      var a :| AttemptFrom(past, a) && next == Publish(a, db).1;
      UnpublishedChangesNothing(past, a);
      if Publish(a, db).0 == Published { PublishKeepsLocks(past, a, next); }
    }
  }

  lemma {:induction false} RunPrefix(h: seq<Store>, n: nat)
    requires ValidRun(h) && 0 < n <= |h|
    ensures ValidRun(h[..n]) && (n < |h| ==> Step(h[..n], h[n]))
    decreases |h|
  {
    if n < |h| {
      if n == |h| - 1 {
        assert ValidRun(h[..n]);
      } else {
        RunPrefix(h[..|h| - 1], n);
        assert h[..|h| - 1][..n] == h[..n] && h[..|h| - 1][n] == h[n];
      }
    } else {
      assert h[..n] == h;
    }
  }

  lemma {:induction false} StepInRun(h: seq<Store>, j: nat)
    requires ValidRun(h) && j + 1 < |h|
    ensures ValidRun(h[..j+1]) && Ordered(h[..j+1]) && AllInv(h[..j+1]) && Step(h[..j+1], h[j+1])
    ensures h[..j+1][j] == h[j]
  {
    RunPrefix(h, j + 1);
    RunIsOrdered(h[..j+1]);
  }

  /** Over every run, whoever writes: a lock once set stays set. */
  lemma {:induction false} LocksAreForever(h: seq<Store>, i: nat, j: nat)
    requires ValidRun(h) && i <= j < |h|
    ensures LocksKept(h[i], h[j])
    decreases j
  {
    if i < j {
      LocksAreForever(h, i, j - 1);
      StepInRun(h, j - 1);
      StepKeepsLocks(h[..j], h[j]);
    }
  }

  lemma LockedStays(a: Store, b: Store, e: string)
    requires Inv(a) && LocksKept(a, b) && LockedSomewhere(a, e)
    ensures LockedSomewhere(b, e)
  {
    StoredRowIsOk(a, EventKey(e));
    if !EventLocked(a, e) {
      var key :| NodeKey(NodeId(e, key)) in a.rows && WasLocked(Some(a.rows[NodeKey(NodeId(e, key))]));
      StoredRowIsOk(a, NodeKey(NodeId(e, key)));
      assert NodeLocked(a, NodeId(e, key)) && NodeLocked(b, NodeId(e, key));
    } else {
      assert EventLocked(b, e);
    }
  }

  // ---------------------------------------------------------------- what the locks protect

  /** An administrator's publication between two moments of a run. */
  ghost predicate ManualBetween(h: seq<Store>, i: nat, j: nat) {
    exists m: nat, a :: i <= m < j < |h| && PublishedAt(h, m, a) && a.manual.Some?
  }

  /** The step after state `m` is this publication. */
  ghost predicate PublishedAt(h: seq<Store>, m: nat, a: Attempt) {
    m + 1 < |h| && AttemptFrom(h[..m+1], a) && Publish(a, h[m]) == (Published, h[m+1])
  }

  /** Over every run: no row of an event with a lock on it changes unless an administrator published in between. */
  lemma {:induction false} LockedFactsChangeOnlyByHand(h: seq<Store>, i: nat, j: nat, k: Key)
    requires ValidRun(h) && i <= j < |h| && Owner(k).Some? && LockedSomewhere(h[i], Owner(k).value)
    ensures RowAt(h[i], k) == RowAt(h[j], k) || ManualBetween(h, i, j)
    decreases j
  {
    if i < j {
      LockedFactsChangeOnlyByHand(h, i, j - 1, k);
      assert LockedSomewhere(h[j-1], Owner(k).value) by { StillLocked(h, i, j - 1, Owner(k).value); }
      LockedStep(h, j - 1, k);
    }
  }

  lemma {:induction false} StillLocked(h: seq<Store>, i: nat, j: nat, e: string)
    requires ValidRun(h) && i <= j < |h| && LockedSomewhere(h[i], e)
    ensures LockedSomewhere(h[j], e)
  {
    RunIsOrdered(h);
    LocksAreForever(h, i, j);
    LockedStays(h[i], h[j], e);
  }

  lemma {:induction false} LockedStep(h: seq<Store>, j: nat, k: Key)
    requires ValidRun(h) && j + 1 < |h|
    requires Owner(k).Some? && LockedSomewhere(h[j], Owner(k).value)
    ensures RowAt(h[j], k) == RowAt(h[j+1], k) || exists a :: PublishedAt(h, j, a) && a.manual.Some?
  {
    var past := h[..j+1];
    StepInRun(h, j);
    assert past[|past| - 1] == h[j];
    if !OtherWriter(h[j], h[j+1]) {
      var a :| AttemptFrom(past, a) && h[j+1] == Publish(a, h[j]).1;
      UnpublishedChangesNothing(past, a);
      if Publish(a, h[j]).0 == Published {
        if a.manual.Some? { assert PublishedAt(h, j, a); } else { LocksAreRespected(past, a, h[j+1], k); }
      }
    }
  }

  lemma {:induction false} HandMadeIsLocked(h: seq<Store>, m: nat, j: nat, first: Attempt, i: nat, e: string)
    requires ValidRun(h) && PublishedAt(h, m, first) && EnteredByHand(first) && m < j < |h|
    requires first.candidate.proposal.Events? && i < |first.candidate.proposal.events|
    requires e == TargetOf(first, first.candidate.proposal.events[i])
    ensures LockedSomewhere(h[j], e)
  {
    assert LockedSomewhere(h[m+1], e) by { JustLocked(h, m, first, i); }
    StillLocked(h, m + 1, j, e);
  }

  lemma {:induction false} JustLocked(h: seq<Store>, m: nat, first: Attempt, i: nat)
    requires ValidRun(h) && PublishedAt(h, m, first) && EnteredByHand(first)
    requires first.candidate.proposal.Events? && i < |first.candidate.proposal.events|
    ensures LockedSomewhere(h[m+1], TargetOf(first, first.candidate.proposal.events[i]))
  {
    var past := h[..m+1];
    StepInRun(h, m);
    assert past[|past| - 1] == h[m];
    HandPublicationsLock(past, first, h[m+1], i);
    assert EventLocked(h[m+1], TargetOf(first, first.candidate.proposal.events[i]));
  }

  lemma {:induction false} AutomaticSpares(h: seq<Store>, j: nat, a: Attempt, k: Key)
    requires ValidRun(h) && PublishedAt(h, j, a) && a.manual.None?
    requires Owner(k).Some? && LockedSomewhere(h[j], Owner(k).value)
    ensures RowAt(h[j], k) == RowAt(h[j+1], k)
  {
    var past := h[..j+1];
    StepInRun(h, j);
    assert past[|past| - 1] == h[j];
    LocksAreRespected(past, a, h[j+1], k);
  }

  /** A fact published by hand is never overwritten automatically, however much later: once a publication by
      hand has gone through, no later automatic one of the run touches any row of those events. */
  lemma {:induction false} HandMadeFactsStay(
      h: seq<Store>, m: nat, first: Attempt, i: nat, e: string, j: nat, second: Attempt, k: Key)
    requires ValidRun(h) && PublishedAt(h, m, first) && EnteredByHand(first)
    requires first.candidate.proposal.Events? && i < |first.candidate.proposal.events|
    requires e == TargetOf(first, first.candidate.proposal.events[i]) && Owner(k) == Some(e)
    requires m < j && PublishedAt(h, j, second) && second.manual.None?
    ensures RowAt(h[j], k) == RowAt(h[j+1], k)
  {
    HandMadeIsLocked(h, m, j, first, i, e);
    AutomaticSpares(h, j, second, k);
  }
}
