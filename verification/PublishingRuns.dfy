/** Publishing over whole runs: reads taken at different moments, commits at others, and other
    writers in between.  Optimistic concurrency is serializable, and each of the three version
    counters determines the facts it stands for. */
module PublishingRuns {
  import opened Wrappers
  import opened Time
  import opened Changes
  import opened FactStore
  import opened Publishing
  import opened PublishingPlans
  import Cas

  // ---------------------------------------------------------------- views of a state

  function RowAt(db: Store, k: Key): Option<Cell> {
    if k in db.rows then Some(db.rows[k]) else None
  }

  /** What subscribers can see of a milestone; locks stay internal. */
  datatype PublicView = PublicView(
    eventType: EventType, status: EventStatus, title: string, summary: Option<string>, url: Option<string>,
    nodeType: NodeType, nodeTitle: string, time: TimeValue)

  function ViewOf(e: EventFacts, nodeType: NodeType, title: string, time: TimeValue): PublicView {
    PublicView(e.eventType, e.status, e.title, e.summary, e.url, nodeType, title, time)
  }

  datatype Clock = At(ms: int) | On(day: int) | Never

  function ClockOf(t: TimeValue): Clock {
    match t
    case DateTime(ms, _, _, _) => At(ms)
    case DateOnly(day, _, _, _) => On(day)
    case Unknown(_, _, _) => Never
  }

  /** What decides whether and when a reminder fires. */
  datatype ReminderView = ReminderView(eventType: EventType, nodeType: NodeType, clock: Clock, alarm: bool)

  predicate GoodNode(db: Store, n: NodeId) {
    && NodeKey(n) in db.rows && db.rows[NodeKey(n)].NodeCell? && Readable(db.rows[NodeKey(n)].time)
    && EventKey(n.event) in db.rows && db.rows[EventKey(n.event)].EventCell?
  }

  function NodeView(db: Store, n: NodeId): PublicView
    requires GoodNode(db, n)
  {
    var c := db.rows[NodeKey(n)];
    ViewOf(db.rows[EventKey(n.event)].facts, c.nodeType, c.title, FromColumns(c.time))
  }

  function NodeReminder(db: Store, n: NodeId): ReminderView
    requires GoodNode(db, n)
  {
    var c := db.rows[NodeKey(n)];
    var e := db.rows[EventKey(n.event)].facts;
    ReminderView(e.eventType, c.nodeType, ClockOf(FromColumns(c.time)), CanUseExactAlarm(e.status, FromColumns(c.time)))
  }

  function ReminderAt(db: Store, n: NodeId): Option<ReminderView> {
    if GoodNode(db, n) then Some(NodeReminder(db, n)) else None
  }

  // ---------------------------------------------------------------- one-state invariant

  /** A milestone's projection exists at the same revision and shows the same public facts. */
  predicate ProjectionAgrees(db: Store, n: NodeId)
    requires GoodNode(db, n)
  {
    && ProjectionKey(n) in db.rows && db.rows[ProjectionKey(n)].ProjectionCell?
    && var proj := db.rows[ProjectionKey(n)];
       && proj.event == n.event
       && proj.revision == db.rows[NodeKey(n)].publicRevision
       && ViewOf(proj.eventFacts, proj.nodeFacts.nodeType, proj.nodeFacts.title, proj.nodeFacts.time) == NodeView(db, n)
  }

  predicate RevisionRecorded(db: Store, e: string, revision: nat) {
    EventKey(e) in db.rows && db.rows[EventKey(e)].EventCell? && revision <= db.rows[EventKey(e)].eventRevision
  }

  predicate RowOk(db: Store, k: Key)
    requires k in db.rows
  {
    match k
    case EventKey(_) => db.rows[k].EventCell?
    case NodeKey(n) => GoodNode(db, n) && ProjectionAgrees(db, n)
    case ProjectionKey(n) => NodeKey(n) in db.rows
    case RevisionKey(e, r) => RevisionRecorded(db, e, r)
    case OutboxKey(d) => if d.Notice? then RevisionRecorded(db, d.event, d.revision) else LinkedTo(db, d.candidate)
    case PendingKey => db.rows[k].PendingCell?
  }

  ghost predicate Inv(db: Store) {
    forall k :: k in db.rows ==> RowOk(db, k)
  }

  lemma StoredRowIsOk(db: Store, k: Key)
    requires Inv(db)
    ensures k in db.rows ==> RowOk(db, k)
  {
  }

  // ---------------------------------------------------------------- two-state guarantees

  /** The event revision fixes the event row, its set of milestones and every milestone row. */
  ghost predicate FactsKept(a: Store, b: Store, e: string) {
    EventKey(e) in a.rows && a.rows[EventKey(e)].EventCell? ==>
      && EventKey(e) in b.rows && b.rows[EventKey(e)].EventCell?
      && a.rows[EventKey(e)].eventRevision <= b.rows[EventKey(e)].eventRevision
      && (a.rows[EventKey(e)].eventRevision == b.rows[EventKey(e)].eventRevision ==>
            a.rows[EventKey(e)] == b.rows[EventKey(e)]
            && forall key :: RowAt(a, NodeKey(NodeId(e, key))) == RowAt(b, NodeKey(NodeId(e, key))))
  }

  /** The schedule revision fixes everything reminders are computed from. */
  ghost predicate RemindersKept(a: Store, b: Store, e: string) {
    EventKey(e) in a.rows && a.rows[EventKey(e)].EventCell? ==>
      && EventKey(e) in b.rows && b.rows[EventKey(e)].EventCell?
      && a.rows[EventKey(e)].scheduleRevision <= b.rows[EventKey(e)].scheduleRevision
      && (a.rows[EventKey(e)].scheduleRevision == b.rows[EventKey(e)].scheduleRevision ==>
            forall key :: ReminderAt(a, NodeId(e, key)) == ReminderAt(b, NodeId(e, key)))
  }

  /** The public revision fixes what the calendar shows. */
  ghost predicate PublicKept(a: Store, b: Store, n: NodeId) {
    GoodNode(a, n) ==>
      && GoodNode(b, n)
      && a.rows[NodeKey(n)].publicRevision <= b.rows[NodeKey(n)].publicRevision
      && (a.rows[NodeKey(n)].publicRevision == b.rows[NodeKey(n)].publicRevision ==> NodeView(a, n) == NodeView(b, n))
  }

  ghost predicate Mono(a: Store, b: Store) {
    && (forall e :: FactsKept(a, b, e))
    && (forall e :: RemindersKept(a, b, e))
    && (forall n :: PublicKept(a, b, n))
    && a.evidence <= b.evidence
  }

  lemma MonoTrans(a: Store, b: Store, c: Store)
    requires Mono(a, b) && Mono(b, c)
    ensures Mono(a, c)
  {
    forall e ensures FactsKept(a, c, e) {
      assert FactsKept(a, b, e) && FactsKept(b, c, e);
    }
    forall e ensures RemindersKept(a, c, e) {
      assert RemindersKept(a, b, e) && RemindersKept(b, c, e);
    }
    forall n ensures PublicKept(a, c, n) {
      assert PublicKept(a, b, n) && PublicKept(b, c, n);
    }
  }

  // ---------------------------------------------------------------- what a commit installs

  predicate Sound(planned: seq<PlannedEvent>) {
    DistinctIds(planned) && forall i :: 0 <= i < |planned| ==> PlannedShape(planned[i])
  }

  lemma EventWriteApplies(db: Store, a: Attempt, planned: seq<PlannedEvent>, i: nat, w: Write)
    requires Inv(db) && Sound(planned) && GuardHolds(db, a, planned) && i < |planned|
    requires w in EventWrites(a, planned[i])
    ensures Applicable(w, db)
  {
    var p := planned[i];
    EventWritesForms(a, p);
    assert EventMatches(db, a, p) && PlannedShape(p);
    if j :| 0 <= j < |p.nodes| && (w in NodeWrite(p, p.nodes[j]) || w in ProjectionWrite(p, p.nodes[j])) {
      assert NodeMatches(db, p, p.nodes[j]) && NodeShape(p, p.nodes[j]);
      NodeWriteApplies(db, p, p.nodes[j], w);
    } else if w == EventWrite(a, p) || w in Records(p) {
      EventRowApplies(db, a, p, w);
    } else {
      assert WriteForm(a, p, w);
    }
  }

  lemma NodeWriteApplies(db: Store, p: PlannedEvent, n: PlannedNode, w: Write)
    requires Inv(db) && NodeMatches(db, p, n) && NodeShape(p, n)
    requires w in NodeWrite(p, n) || w in ProjectionWrite(p, n)
    ensures Applicable(w, db)
  {
    StoredRowIsOk(db, w.key);
  }

  lemma EventRowApplies(db: Store, a: Attempt, p: PlannedEvent, w: Write)
    requires Inv(db) && EventMatches(db, a, p) && PlannedShape(p)
    requires w == EventWrite(a, p) || w in Records(p)
    ensures Applicable(w, db)
  {
    StoredRowIsOk(db, w.key);
  }

  lemma WritesApply(db: Store, a: Attempt, planned: seq<PlannedEvent>)
    requires Inv(db) && Sound(planned) && GuardHolds(db, a, planned)
    ensures AllApplicable(Writes(a, planned), db) && DistinctKeys(Writes(a, planned))
  {
    var ws := Writes(a, planned);
    AllEventWritesMembers(a, planned);
    forall k | 0 <= k < |ws| ensures Applicable(ws[k], db) {
      if ws[k] in AllEventWrites(a, planned) {
        var i :| 0 <= i < |planned| && Changed(planned[i]) && ws[k] in EventWrites(a, planned[i]);
        EventWriteApplies(db, a, planned, i, ws[k]);
      } else {
        assert ws[k] in PendingWrites(a);
        StoredRowIsOk(db, ws[k].key);
      }
    }
    forall i | 0 <= i < |planned| ensures UniquePlanned(planned[i].nodes) { assert PlannedShape(planned[i]); }
    WritesDistinct(a, planned);
  }

  /** A guard that holds publishes: every chained write hits exactly one row. */
  lemma CommitInstalls(db: Store, a: Attempt, planned: seq<PlannedEvent>)
    requires Inv(db) && Sound(planned)
    ensures GuardHolds(db, a, planned) ==>
              AllApplicable(Writes(a, planned), db) && DistinctKeys(Writes(a, planned))
              && Cas.Commit(CommitPlan(a, planned), db) == (Cas.Committed, Fold(Writes(a, planned), db))
    ensures !GuardHolds(db, a, planned) ==> Cas.Commit(CommitPlan(a, planned), db) == (Cas.ConditionMissed, db)
  {
    var plan := CommitPlan(a, planned);
    var ws := Writes(a, planned);
    CompiledShape<Proposal>(ws);
    assert forall i :: 0 <= i < |ws| ==> OneRowEffect(plan.effects[i]);
    assert Cas.RunPreamble(plan.preamble, db) == Cas.Done(db, []);
    if GuardHolds(db, a, planned) {
      WritesApply(db, a, planned);
      EveryWriteHitsOneRow(ws, db);
    } else {
      Cas.GuardMissIsNoOp(plan, db);
    }
  }

  predicate ChangedId(planned: seq<PlannedEvent>, e: string) {
    exists i :: 0 <= i < |planned| && Changed(planned[i]) && planned[i].id == e
  }

  /** Rows of an event the plan does not change keep their value. */
  lemma UntouchedEvent(db: Store, a: Attempt, planned: seq<PlannedEvent>, k: Key)
    requires Owner(k).Some? && !ChangedId(planned, Owner(k).value)
    ensures RowAt(Fold(Writes(a, planned), db), k) == RowAt(db, k)
  {
    var ws := Writes(a, planned);
    AllEventWritesMembers(a, planned);
    forall j | 0 <= j < |ws| ensures !Touches(ws[j], k) {
      if ws[j] in AllEventWrites(a, planned) {
        var i :| 0 <= i < |planned| && Changed(planned[i]) && ws[j] in EventWrites(a, planned[i]);
        EventWritesOwned(a, planned[i]);
      } else {
        assert ws[j] in PendingWrites(a);
      }
    }
    FoldElsewhere(ws, db, k);
  }

  /** A row of a changed event that none of that event's own writes touches keeps its value. */
  lemma UntouchedRow(db: Store, a: Attempt, planned: seq<PlannedEvent>, i: nat, k: Key)
    requires Sound(planned) && i < |planned| && Owner(k) == Some(planned[i].id)
    requires forall w :: w in EventWrites(a, planned[i]) ==> !Touches(w, k)
    ensures RowAt(Fold(Writes(a, planned), db), k) == RowAt(db, k)
  {
    var ws := Writes(a, planned);
    AllEventWritesMembers(a, planned);
    forall j | 0 <= j < |ws| ensures !Touches(ws[j], k) {
      if ws[j] in AllEventWrites(a, planned) {
        var i' :| 0 <= i' < |planned| && Changed(planned[i']) && ws[j] in EventWrites(a, planned[i']);
        EventWritesOwned(a, planned[i']);
        if i' != i { assert planned[i'].id != planned[i].id; }
      } else {
        assert ws[j] in PendingWrites(a);
      }
    }
    FoldElsewhere(ws, db, k);
  }

  lemma Installed(db: Store, a: Attempt, planned: seq<PlannedEvent>, i: nat, w: Write)
    requires AllApplicable(Writes(a, planned), db) && DistinctKeys(Writes(a, planned))
    requires i < |planned| && Changed(planned[i]) && w in EventWrites(a, planned[i]) && !w.AddEvidence?
    ensures Applicable(w, db)
    ensures RowAt(Fold(Writes(a, planned), db), w.key) == Some(NewCell(w, db))
  {
    AllEventWritesMembers(a, planned);
    FoldOf(Writes(a, planned), db, w);
  }

  // ---------------------------------------------------------------- the plan against the store

  /** The rows a planned event was computed from are exactly the rows stored now. */
  ghost predicate PlanMatches(db: Store, p: PlannedEvent) {
    && p.prior == RowAt(db, EventKey(p.id))
    && (forall n :: n in p.nodes ==> n.prior == RowAt(db, NodeKey(IdOf(p, n))))
    && (forall key :: NodeKey(NodeId(p.id, key)) in db.rows ==> HasKey(p.nodes, key))
  }

  /** Everything about one committed event. */
  ghost predicate Commits(db: Store, a: Attempt, planned: seq<PlannedEvent>, db': Store) {
    && Inv(db) && Sound(planned) && GuardHolds(db, a, planned)
    && db' == Fold(Writes(a, planned), db)
    && AllApplicable(Writes(a, planned), db) && DistinctKeys(Writes(a, planned))
    && (forall i :: 0 <= i < |planned| ==> PlanMatches(db, planned[i]))
  }

  /** The event row and the milestone and projection rows of one planned node after the commit. */
  lemma EventAfter(db: Store, a: Attempt, planned: seq<PlannedEvent>, db': Store, i: nat)
    requires Commits(db, a, planned, db') && i < |planned| && Changed(planned[i])
    ensures var p := planned[i];
            && EventKey(p.id) in db'.rows && db'.rows[EventKey(p.id)].EventCell?
            && db'.rows[EventKey(p.id)].facts == p.facts
            && db'.rows[EventKey(p.id)].eventRevision == Revision(p)
            && db'.rows[EventKey(p.id)].scheduleRevision == ScheduleRevision(p)
  {
    var p := planned[i];
    EventWritesForms(a, p);
    Installed(db, a, planned, i, EventWrite(a, p));
    assert PlannedShape(p);
  }

  function NodeCellAfter(p: PlannedEvent, n: PlannedNode): Cell {
    if n.prior.Some? && !ChangeOf(p, n).changed && !ChangeOf(p, n).publicChanged
    then n.prior.value else NodeCellOf(p, n)
  }

  /** Two planned nodes of one event never write the same row. */
  lemma OnlyOneNodeWrites(a: Attempt, p: PlannedEvent, n: PlannedNode)
    requires UniquePlanned(p.nodes) && n in p.nodes
    ensures NodeWrite(p, n) == [] ==> forall w :: w in EventWrites(a, p) ==> !Touches(w, NodeKey(IdOf(p, n)))
    ensures ProjectionWrite(p, n) == [] ==> forall w :: w in EventWrites(a, p) ==>
        !Touches(w, ProjectionKey(IdOf(p, n)))
  {
    EventWritesForms(a, p);
    var j :| 0 <= j < |p.nodes| && p.nodes[j] == n;
    forall w | w in EventWrites(a, p)
      ensures NodeWrite(p, n) == [] ==> !Touches(w, NodeKey(IdOf(p, n)))
      ensures ProjectionWrite(p, n) == [] ==> !Touches(w, ProjectionKey(IdOf(p, n)))
    {
      if w == EventWrite(a, p) || w in Records(p) || w.AddEvidence? {
      } else if m :| 0 <= m < |p.nodes| && w in NodeWrite(p, p.nodes[m]) {
        assert m != j ==> p.nodes[m].facts.key != p.nodes[j].facts.key;
      } else {
        assert WriteForm(a, p, w);
        var m :| 0 <= m < |p.nodes| && w in ProjectionWrite(p, p.nodes[m]);
        assert m != j ==> p.nodes[m].facts.key != p.nodes[j].facts.key;
      }
    }
  }

  lemma WrittenNode(db: Store, a: Attempt, planned: seq<PlannedEvent>, db': Store, i: nat, n: PlannedNode, w: Write)
    requires Commits(db, a, planned, db') && i < |planned| && Changed(planned[i]) && n in planned[i].nodes
    requires NodeWrite(planned[i], n) == [w]
    ensures RowAt(db', NodeKey(IdOf(planned[i], n))) == Some(NodeCellOf(planned[i], n))
  {
    NodeWriteIsWritten(a, planned[i], n, w);
    Installed(db, a, planned, i, w);
    NodeWriteCell(planned[i], n, w, db);
  }

  /** The write of a milestone names all of its columns. */
  lemma NodeWriteCell(p: PlannedEvent, n: PlannedNode, w: Write, db: Store)
    requires NodeWrite(p, n) == [w] && !w.AddEvidence? && Applicable(w, db)
    ensures w.key == NodeKey(IdOf(p, n)) && NewCell(w, db) == NodeCellOf(p, n)
  {
  }

  lemma NodeWriteIsWritten(a: Attempt, p: PlannedEvent, n: PlannedNode, w: Write)
    requires n in p.nodes && (w in NodeWrite(p, n) || w in ProjectionWrite(p, n))
    ensures w in EventWrites(a, p)
  {
    EventWritesForms(a, p);
    var j :| 0 <= j < |p.nodes| && p.nodes[j] == n;
    assert w in NodeWrite(p, p.nodes[j]) || w in ProjectionWrite(p, p.nodes[j]);
  }

  lemma NodeAfter(db: Store, a: Attempt, planned: seq<PlannedEvent>, db': Store, i: nat, n: PlannedNode)
    requires Commits(db, a, planned, db') && i < |planned| && Changed(planned[i]) && n in planned[i].nodes
    ensures RowAt(db', NodeKey(IdOf(planned[i], n))) == Some(NodeCellAfter(planned[i], n))
  {
    var p := planned[i];
    if NodeWrite(p, n) == [] {
      assert PlannedShape(p) && PlanMatches(db, p);
      OnlyOneNodeWrites(a, p, n);
      UntouchedRow(db, a, planned, i, NodeKey(IdOf(p, n)));
    } else {
      WrittenNode(db, a, planned, db', i, n, NodeWrite(p, n)[0]);
    }
  }

  lemma ProjectionAfter(db: Store, a: Attempt, planned: seq<PlannedEvent>, db': Store, i: nat, n: PlannedNode)
    requires Commits(db, a, planned, db') && i < |planned| && Changed(planned[i]) && n in planned[i].nodes
    ensures var p := planned[i];
            RowAt(db', ProjectionKey(IdOf(p, n))) ==
              if ChangeOf(p, n).publicChanged then Some(ProjectionCell(p.id, PriorRevision(n) + 1, p.facts, n.facts))
              else RowAt(db, ProjectionKey(IdOf(p, n)))
  {
    var p := planned[i];
    if ProjectionWrite(p, n) == [] {
      assert PlannedShape(p);
      OnlyOneNodeWrites(a, p, n);
      UntouchedRow(db, a, planned, i, ProjectionKey(IdOf(p, n)));
    } else {
      WrittenProjection(db, a, planned, db', i, n, ProjectionWrite(p, n)[0]);
      ProjectedEvent(db, planned, i, n);
      ProjectedCell(db, p, n, ProjectionWrite(p, n)[0]);
    }
  }

  lemma ProjectedCell(db: Store, p: PlannedEvent, n: PlannedNode, w: Write)
    requires ProjectionWrite(p, n) == [w] && Applicable(w, db)
    requires n.prior.Some? ==>
               var key := ProjectionKey(IdOf(p, n));
               key in db.rows && db.rows[key].ProjectionCell? && db.rows[key].event == p.id
    ensures NewCell(w, db) == ProjectionCell(p.id, PriorRevision(n) + 1, p.facts, n.facts)
  {
  }

  lemma WrittenProjection(
      db: Store, a: Attempt, planned: seq<PlannedEvent>, db': Store, i: nat, n: PlannedNode, w: Write)
    requires Commits(db, a, planned, db') && i < |planned| && Changed(planned[i]) && n in planned[i].nodes
    requires ProjectionWrite(planned[i], n) == [w]
    ensures Applicable(w, db) && RowAt(db', ProjectionKey(IdOf(planned[i], n))) == Some(NewCell(w, db))
  {
    assert w in EventWrites(a, planned[i]) by { NodeWriteIsWritten(a, planned[i], n, w); }
    Installed(db, a, planned, i, w);
  }

  /** A stored projection of a planned node belongs to that event. */
  lemma ProjectedEvent(db: Store, planned: seq<PlannedEvent>, i: nat, n: PlannedNode)
    requires Inv(db) && i < |planned| && PlanMatches(db, planned[i]) && n in planned[i].nodes
    ensures n.prior.Some? ==>
              var key := ProjectionKey(IdOf(planned[i], n));
              key in db.rows && db.rows[key].ProjectionCell? && db.rows[key].event == planned[i].id
  {
    if n.prior.Some? { StoredRowIsOk(db, NodeKey(IdOf(planned[i], n))); }
  }

  /** One published milestone: its projection agrees, and its public revision moved if its view did. */
  lemma PublishedNode(db: Store, a: Attempt, planned: seq<PlannedEvent>, db': Store, i: nat, n: PlannedNode)
    requires Commits(db, a, planned, db') && i < |planned| && Changed(planned[i]) && n in planned[i].nodes
    ensures var id := IdOf(planned[i], n);
            GoodNode(db', id) && ProjectionAgrees(db', id) && PublicKept(db, db', id)
  {
    var p := planned[i];
    var id := IdOf(p, n);
    EventAfter(db, a, planned, db', i);
    NodeAfter(db, a, planned, db', i, n);
    ProjectionAfter(db, a, planned, db', i, n);
    assert PlannedShape(p) && PlanMatches(db, p);
    var j :| 0 <= j < |p.nodes| && p.nodes[j] == n;
    assert NodeShape(p, n);
    ColumnsRoundTrip(n.facts.time);
    if n.prior.Some? { assert RowOk(db, NodeKey(id)); }
  }

  lemma NoWriteForKey(a: Attempt, p: PlannedEvent, key: string, w: Write)
    requires !HasKey(p.nodes, key) && w in EventWrites(a, p)
    ensures !Touches(w, NodeKey(NodeId(p.id, key))) && !Touches(w, ProjectionKey(NodeId(p.id, key)))
  {
    EventWritesForms(a, p);
    assert WriteForm(a, p, w);
  }

  /** A key the plan does not mention has no milestone row before or after. */
  lemma UnplannedKey(db: Store, a: Attempt, planned: seq<PlannedEvent>, db': Store, i: nat, key: string)
    requires Commits(db, a, planned, db') && i < |planned| && Changed(planned[i]) && !HasKey(planned[i].nodes, key)
    ensures NodeKey(NodeId(planned[i].id, key)) !in db.rows && NodeKey(NodeId(planned[i].id, key)) !in db'.rows
    ensures ProjectionKey(NodeId(planned[i].id, key)) !in db'.rows
  {
    var p := planned[i];
    var nk, pk := NodeKey(NodeId(p.id, key)), ProjectionKey(NodeId(p.id, key));
    assert nk !in db.rows by { assert PlanMatches(db, p); }
    assert RowAt(db', nk) == RowAt(db, nk) && RowAt(db', pk) == RowAt(db, pk) by {
      forall w | w in EventWrites(a, p) ensures !Touches(w, nk) && !Touches(w, pk) {
        NoWriteForKey(a, p, key, w);
      }
      UntouchedRow(db, a, planned, i, nk);
      UntouchedRow(db, a, planned, i, pk);
    }
    StoredRowIsOk(db, pk);
  }

  lemma PlannedReminder(db: Store, a: Attempt, planned: seq<PlannedEvent>, db': Store, i: nat, n: PlannedNode)
    requires Commits(db, a, planned, db') && i < |planned| && Changed(planned[i]) && n in planned[i].nodes
    requires planned[i].prior.Some? && !ChangeOf(planned[i], n).scheduleChanged
    ensures ReminderAt(db, IdOf(planned[i], n)) == ReminderAt(db', IdOf(planned[i], n))
  {
    var p := planned[i];
    EventAfter(db, a, planned, db', i);
    NodeAfter(db, a, planned, db', i, n);
    assert PlannedShape(p) && PlanMatches(db, p);
    var j :| 0 <= j < |p.nodes| && p.nodes[j] == n;
    assert NodeShape(p, n);
    ColumnsRoundTrip(n.facts.time);
    StoredRowIsOk(db, NodeKey(IdOf(p, n)));
  }

  lemma RemindersOfChanged(db: Store, a: Attempt, planned: seq<PlannedEvent>, db': Store, i: nat)
    requires Commits(db, a, planned, db') && i < |planned| && Changed(planned[i])
    ensures RemindersKept(db, db', planned[i].id)
  {
    var p := planned[i];
    EventAfter(db, a, planned, db', i);
    assert PlannedShape(p) && PlanMatches(db, p);
    if p.prior.Some? && !p.change.scheduleRevision {
      forall key ensures ReminderAt(db, NodeId(p.id, key)) == ReminderAt(db', NodeId(p.id, key)) {
        if HasKey(p.nodes, key) {
          var j :| 0 <= j < |p.nodes| && p.nodes[j].facts.key == key;
          assert !ChangeOf(p, p.nodes[j]).scheduleChanged;
          PlannedReminder(db, a, planned, db', i, p.nodes[j]);
        } else {
          UnplannedKey(db, a, planned, db', i, key);
        }
      }
    }
  }

  lemma EventRowsSame(db: Store, a: Attempt, planned: seq<PlannedEvent>, db': Store, e: string)
    requires Commits(db, a, planned, db') && !ChangedId(planned, e)
    ensures RowAt(db, EventKey(e)) == RowAt(db', EventKey(e))
    ensures forall key :: RowAt(db, NodeKey(NodeId(e, key))) == RowAt(db', NodeKey(NodeId(e, key)))
    ensures forall key :: RowAt(db, ProjectionKey(NodeId(e, key))) == RowAt(db', ProjectionKey(NodeId(e, key)))
  {
    UntouchedEvent(db, a, planned, EventKey(e));
    forall key ensures RowAt(db, NodeKey(NodeId(e, key))) == RowAt(db', NodeKey(NodeId(e, key))) {
      UntouchedEvent(db, a, planned, NodeKey(NodeId(e, key)));
    }
    forall key ensures RowAt(db, ProjectionKey(NodeId(e, key))) == RowAt(db', ProjectionKey(NodeId(e, key))) {
      UntouchedEvent(db, a, planned, ProjectionKey(NodeId(e, key)));
    }
  }

  /** If neither the event row nor a milestone row moved, every guarantee about the milestone is kept. */
  lemma SameRowsKeepNode(db: Store, db': Store, n: NodeId)
    requires RowAt(db, EventKey(n.event)) == RowAt(db', EventKey(n.event))
    requires RowAt(db, NodeKey(n)) == RowAt(db', NodeKey(n))
    ensures PublicKept(db, db', n) && ReminderAt(db, n) == ReminderAt(db', n)
    ensures GoodNode(db, n) <==> GoodNode(db', n)
    ensures GoodNode(db, n) && RowAt(db, ProjectionKey(n)) == RowAt(db', ProjectionKey(n)) ==>
              (ProjectionAgrees(db, n) <==> ProjectionAgrees(db', n))
  {
  }

  lemma CommitIsMono(db: Store, a: Attempt, planned: seq<PlannedEvent>, db': Store)
    requires Commits(db, a, planned, db')
    ensures Mono(db, db')
  {
    FoldTables(Writes(a, planned), db);
    forall e ensures FactsKept(db, db', e) && RemindersKept(db, db', e) {
      if ChangedId(planned, e) {
        var i :| 0 <= i < |planned| && Changed(planned[i]) && planned[i].id == e;
        EventAfter(db, a, planned, db', i);
        RemindersOfChanged(db, a, planned, db', i);
        assert PlanMatches(db, planned[i]);
      } else {
        EventRowsSame(db, a, planned, db', e);
        forall key ensures ReminderAt(db, NodeId(e, key)) == ReminderAt(db', NodeId(e, key)) {
          SameRowsKeepNode(db, db', NodeId(e, key));
        }
      }
    }
    forall n ensures PublicKept(db, db', n) {
      CommitKeepsNode(db, a, planned, db', n);
    }
  }

  lemma CommitKeepsNode(db: Store, a: Attempt, planned: seq<PlannedEvent>, db': Store, n: NodeId)
    requires Commits(db, a, planned, db')
    ensures PublicKept(db, db', n)
    ensures NodeKey(n) in db'.rows ==> GoodNode(db', n) && ProjectionAgrees(db', n)
    ensures ProjectionKey(n) in db'.rows ==> NodeKey(n) in db'.rows
  {
    assert n == NodeId(n.event, n.key);
    if ChangedId(planned, n.event) {
      var i :| 0 <= i < |planned| && Changed(planned[i]) && planned[i].id == n.event;
      if HasKey(planned[i].nodes, n.key) {
        var j :| 0 <= j < |planned[i].nodes| && planned[i].nodes[j].facts.key == n.key;
        PublishedNode(db, a, planned, db', i, planned[i].nodes[j]);
      } else {
        UnplannedKey(db, a, planned, db', i, n.key);
      }
    } else {
      EventRowsSame(db, a, planned, db', n.event);
      assert RowAt(db, NodeKey(NodeId(n.event, n.key))) == RowAt(db', NodeKey(NodeId(n.event, n.key)));
      assert RowAt(db, ProjectionKey(NodeId(n.event, n.key))) == RowAt(db', ProjectionKey(NodeId(n.event, n.key)));
      SameRowsKeepNode(db, db', n);
      StoredRowIsOk(db, NodeKey(n));
      StoredRowIsOk(db, ProjectionKey(n));
    }
  }

  lemma RecordWrites(a: Attempt, p: PlannedEvent, w: Write, k: Key)
    requires w in EventWrites(a, p) && Touches(w, k)
    requires k.RevisionKey? || (k.OutboxKey? && k.dedupe.Notice?)
    ensures k == RevisionKey(p.id, Revision(p)) || k == OutboxKey(Notice(p.id, Revision(p)))
  {
    EventWritesForms(a, p);
    assert WriteForm(a, p, w);
  }

  lemma RecordOk(db: Store, a: Attempt, planned: seq<PlannedEvent>, db': Store, k: Key)
    requires Commits(db, a, planned, db') && Mono(db, db') && k in db'.rows
    requires k.RevisionKey? || (k.OutboxKey? && k.dedupe.Notice?)
    ensures RowOk(db', k)
  {
    var e := Owner(k).value;
    if !ChangedId(planned, e) {
      UntouchedEvent(db, a, planned, k);
      StoredRecordOk(db, db', k);
    } else {
      var i :| 0 <= i < |planned| && Changed(planned[i]) && planned[i].id == e;
      if w :| w in EventWrites(a, planned[i]) && Touches(w, k) {
        RecordWrites(a, planned[i], w, k);
        EventAfter(db, a, planned, db', i);
      } else {
        UntouchedRow(db, a, planned, i, k);
        StoredRecordOk(db, db', k);
      }
    }
  }

  lemma StoredRecordOk(db: Store, db': Store, k: Key)
    requires Inv(db) && Mono(db, db') && k in db.rows && k in db'.rows
    requires k.RevisionKey? || (k.OutboxKey? && k.dedupe.Notice?)
    ensures RowOk(db', k)
  {
    assert RowOk(db, k);
    assert FactsKept(db, db', Owner(k).value);
  }

  /** Publishing links the candidate, and only the pending row and the rebuild signal lie outside events. */
  lemma CommitLinks(db: Store, a: Attempt, planned: seq<PlannedEvent>, db': Store)
    requires Commits(db, a, planned, db') && AnyChanged(planned)
    ensures LinkedTo(db', a.candidateId)
  {
    var i :| 0 <= i < |planned| && Changed(planned[i]);
    EventEvidenceIsWritten(a, planned[i]);
    AllEventWritesMembers(a, planned);
    FoldTables(Writes(a, planned), db);
    var ev := Evidence(a.candidateId, Some(planned[i].id), None, a.article.version, planned[i].typeRef);
    assert AddEvidence(ev) in Writes(a, planned);
    assert ev in db'.evidence;
  }

  lemma OutsideWrites(a: Attempt, planned: seq<PlannedEvent>, w: Write, k: Key)
    requires w in Writes(a, planned) && Touches(w, k) && Owner(k).None?
    ensures w in PendingWrites(a)
  {
    AllEventWritesMembers(a, planned);
    if w in AllEventWrites(a, planned) {
      var i :| 0 <= i < |planned| && Changed(planned[i]) && w in EventWrites(a, planned[i]);
      EventWritesOwned(a, planned[i]);
    }
  }

  lemma OutsideOk(db: Store, a: Attempt, planned: seq<PlannedEvent>, db': Store, k: Key)
    requires Commits(db, a, planned, db') && AnyChanged(planned) && k in db'.rows && Owner(k).None?
    ensures RowOk(db', k)
  {
    var ws := Writes(a, planned);
    CommitLinks(db, a, planned, db');
    if w :| w in ws && Touches(w, k) {
      FoldOf(ws, db, w);
      OutsideWrites(a, planned, w, k);
    } else {
      forall j | 0 <= j < |ws| ensures !Touches(ws[j], k) { assert ws[j] in ws; }
      FoldElsewhere(ws, db, k);
      StoredRowIsOk(db, k);
      FoldTables(ws, db);
    }
  }

  lemma CommitKeepsInv(db: Store, a: Attempt, planned: seq<PlannedEvent>, db': Store)
    requires Commits(db, a, planned, db') && AnyChanged(planned)
    ensures Inv(db')
  {
    CommitIsMono(db, a, planned, db');
    forall k | k in db'.rows ensures RowOk(db', k) {
      match k
      case EventKey(e) =>
        if ChangedId(planned, e) {
          var i :| 0 <= i < |planned| && Changed(planned[i]) && planned[i].id == e;
          EventAfter(db, a, planned, db', i);
        } else {
          UntouchedEvent(db, a, planned, k);
          StoredRowIsOk(db, k);
        }
      case NodeKey(n) => CommitKeepsNode(db, a, planned, db', n);
      case ProjectionKey(n) => CommitKeepsNode(db, a, planned, db', n);
      case RevisionKey(_, _) => RecordOk(db, a, planned, db', k);
      case OutboxKey(d) =>
        if d.Notice? { RecordOk(db, a, planned, db', k); } else { OutsideOk(db, a, planned, db', k); }
      case PendingKey => OutsideOk(db, a, planned, db', k);
    }
  }

  // ---------------------------------------------------------------- runs

  /** Writers other than the publisher: they may change candidates, articles and the pending row and
      add evidence, but no fact row. */
  ghost predicate OtherWriter(a: Store, b: Store) {
    && (forall k: Key :: k != PendingKey ==> RowAt(a, k) == RowAt(b, k))
    && (PendingKey in b.rows ==> b.rows[PendingKey].PendingCell?)
    && a.evidence <= b.evidence
  }

  /** The event row was read in one earlier state and its milestones in the same or a later one. */
  ghost predicate Observed(past: seq<Store>, e: string, r: Reading) {
    exists i, j :: 0 <= i <= j < |past| && ReadAt(past[i], past[j], e, r)
  }

  ghost predicate ReadAt(s: Store, t: Store, e: string, r: Reading) {
    && r.event == RowAt(s, EventKey(e))
    && UniqueStored(r.nodes)
    && (if r.event.None? then r.nodes == []
        else forall key :: FindNode(r.nodes, key) == RowAt(t, NodeKey(NodeId(e, key))))
  }

  ghost predicate AttemptFrom(past: seq<Store>, a: Attempt) {
    a.candidate.proposal.Events? && |a.candidate.proposal.events| == |a.readings| ==>
      forall i :: 0 <= i < |a.readings| ==> Observed(past, TargetOf(a, a.candidate.proposal.events[i]), a.readings[i])
  }

  ghost predicate Step(past: seq<Store>, next: Store)
    requires |past| > 0
  {
    || OtherWriter(past[|past| - 1], next)
    || exists a :: AttemptFrom(past, a) && next == Publish(a, past[|past| - 1]).1
  }

  /** A run from empty fact tables: any interleaving of other writers with publishers that read earlier. */
  ghost predicate ValidRun(h: seq<Store>) {
    |h| > 0 &&
    if |h| == 1 then h[0].rows == map[]
    else ValidRun(h[..|h| - 1]) && Step(h[..|h| - 1], h[|h| - 1])
  }

  ghost predicate Ordered(h: seq<Store>) {
    forall i, j :: 0 <= i <= j < |h| ==> Mono(h[i], h[j])
  }

  ghost predicate AllInv(h: seq<Store>) {
    forall i :: 0 <= i < |h| ==> Inv(h[i])
  }

  lemma OtherWriterIsMono(a: Store, b: Store)
    requires Inv(a) && OtherWriter(a, b)
    ensures Inv(b) && Mono(a, b)
  {
    forall e ensures FactsKept(a, b, e) && RemindersKept(a, b, e) {
      assert RowAt(a, EventKey(e)) == RowAt(b, EventKey(e));
      forall key
        ensures RowAt(a, NodeKey(NodeId(e, key))) == RowAt(b, NodeKey(NodeId(e, key)))
        ensures ReminderAt(a, NodeId(e, key)) == ReminderAt(b, NodeId(e, key))
      {
        SameRowsKeepNode(a, b, NodeId(e, key));
      }
    }
    forall n ensures PublicKept(a, b, n) {
      assert RowAt(a, EventKey(n.event)) == RowAt(b, EventKey(n.event)) && RowAt(a, NodeKey(n)) == RowAt(b, NodeKey(n));
    }
    forall k | k in b.rows ensures RowOk(b, k) {
      OtherWriterKeepsRow(a, b, k);
    }
  }

  lemma OtherWriterKeepsRow(a: Store, b: Store, k: Key)
    requires Inv(a) && OtherWriter(a, b) && k in b.rows
    ensures RowOk(b, k)
  {
    if k != PendingKey {
      assert RowAt(a, k) == RowAt(b, k);
      assert RowOk(a, k);
      match k
      case NodeKey(n) =>
        assert RowAt(a, EventKey(n.event)) == RowAt(b, EventKey(n.event));
        assert RowAt(a, ProjectionKey(n)) == RowAt(b, ProjectionKey(n));
      case ProjectionKey(n) => assert RowAt(a, NodeKey(n)) == RowAt(b, NodeKey(n));
      case RevisionKey(e, _) => assert RowAt(a, EventKey(e)) == RowAt(b, EventKey(e));
      case OutboxKey(d) => if d.Notice? { assert RowAt(a, EventKey(d.event)) == RowAt(b, EventKey(d.event)); }
      case _ =>
    }
  }

  /** No ABA: if the guard finds the event at the revision that was read, then the event row and all
      its milestone rows are still the ones that were read, although they were read at different times. */
  lemma {:induction false} ReadingIsCurrent(h: seq<Store>, e: string, r: Reading)
    requires |h| > 0 && Ordered(h) && AllInv(h) && Observed(h, e, r)
    requires r.event.Some? && r.event.value.EventCell?
    requires var db := h[|h| - 1];
             RowAt(db, EventKey(e)).Some? && db.rows[EventKey(e)].EventCell?
             && db.rows[EventKey(e)].eventRevision == r.event.value.eventRevision
    ensures r.event == RowAt(h[|h| - 1], EventKey(e))
    ensures forall key :: FindNode(r.nodes, key) == RowAt(h[|h| - 1], NodeKey(NodeId(e, key)))
  {
    var i, j :| 0 <= i <= j < |h| && ReadAt(h[i], h[j], e, r);
    ReadBetween(h[i], h[j], h[|h| - 1], e, r);
  }

  lemma ReadBetween(s: Store, t: Store, db: Store, e: string, r: Reading)
    requires Mono(s, t) && Mono(t, db) && ReadAt(s, t, e, r)
    requires r.event.Some? && r.event.value.EventCell?
    requires RowAt(db, EventKey(e)).Some? && db.rows[EventKey(e)].EventCell?
    requires db.rows[EventKey(e)].eventRevision == r.event.value.eventRevision
    ensures r.event == RowAt(db, EventKey(e))
    ensures forall key :: FindNode(r.nodes, key) == RowAt(db, NodeKey(NodeId(e, key)))
  {
    assert FactsKept(s, t, e) && FactsKept(t, db, e);
    assert r.event == RowAt(db, EventKey(e));
    forall key ensures FindNode(r.nodes, key) == RowAt(db, NodeKey(NodeId(e, key))) {
      assert RowAt(t, NodeKey(NodeId(e, key))) == RowAt(db, NodeKey(NodeId(e, key)));
    }
  }

  lemma DecisionShape(a: Attempt)
    requires Decide(a).Ready?
    ensures a.candidate.proposal.Events? && |a.candidate.proposal.events| == |a.readings|
    ensures ValidProposal(a.candidate.proposal.events)
    ensures PlanItems(a, a.candidate.proposal.events, a.readings) == Decide(a)
    ensures DistinctIds(Decide(a).planned) && AnyChanged(Decide(a).planned)
    ensures |Decide(a).planned| == |a.readings|
  {
    PlanItemsShape(a, a.candidate.proposal.events, a.readings);
  }

  lemma {:induction false} PlannedFrom(h: seq<Store>, a: Attempt, i: nat)
    requires AttemptFrom(h, a) && Decide(a).Ready? && i < |Decide(a).planned|
    ensures i < |a.readings| && a.candidate.proposal.Events? && |a.candidate.proposal.events| == |a.readings|
    ensures var p := Decide(a).planned[i];
            && PlannedShape(p)
            && NodesReadable(a.readings[i].nodes) && UniqueStored(a.readings[i].nodes)
            && p.id == TargetOf(a, a.candidate.proposal.events[i])
            && p.prior == a.readings[i].event
            && p.nodes == PlanNodes(a, a.candidate.proposal.events[i].milestones, a.readings[i].nodes)
            && Observed(h, p.id, a.readings[i])
  {
    DecisionShape(a);
    var items := a.candidate.proposal.events;
    PlanItemsShape(a, items, a.readings);
    assert Observed(h, TargetOf(a, items[i]), a.readings[i]);
    assert UniqueStored(a.readings[i].nodes) by {
      var s, t :| 0 <= s <= t < |h| && ReadAt(h[s], h[t], TargetOf(a, items[i]), a.readings[i]);
    }
    PlanEventShape(a, items[i], a.readings[i]);
  }

  lemma {:induction false} PlanIsSound(h: seq<Store>, a: Attempt)
    requires AttemptFrom(h, a) && Decide(a).Ready?
    ensures Sound(Decide(a).planned)
  {
    DecisionShape(a);
    forall i | 0 <= i < |Decide(a).planned| ensures PlannedShape(Decide(a).planned[i]) { PlannedFrom(h, a, i); }
  }

  /** The guard turns what was read into what is stored. */
  lemma {:induction false} GuardMeansCurrent(h: seq<Store>, a: Attempt, i: nat)
    requires |h| > 0 && Ordered(h) && AllInv(h) && AttemptFrom(h, a) && Decide(a).Ready?
    requires i < |Decide(a).planned| && EventMatches(h[|h| - 1], a, Decide(a).planned[i])
    ensures PlanMatches(h[|h| - 1], Decide(a).planned[i])
  {
    var db, p := h[|h| - 1], Decide(a).planned[i];
    PlannedFrom(h, a, i);
    var ms, r := a.candidate.proposal.events[i].milestones, a.readings[i];
    DecisionShape(a);
    PlanNodesShape(a, ms, r.nodes);
    if p.prior.Some? {
      ReadingIsCurrent(h, p.id, r);
      forall key | NodeKey(NodeId(p.id, key)) in db.rows ensures HasKey(p.nodes, key) {
        assert FindNode(r.nodes, key).Some?;
        var k :| 0 <= k < |r.nodes| && r.nodes[k] == StoredNode(key, FindNode(r.nodes, key).value);
        assert r.nodes[k] in r.nodes;
      }
    } else {
      assert r.nodes == [];
      forall key ensures NodeKey(NodeId(p.id, key)) !in db.rows {
        StoredRowIsOk(db, NodeKey(NodeId(p.id, key)));
      }
    }
  }

  /** Serializability of one call: either the guard misses and nothing changes, or everything the plan
      was computed from is what is stored now and every chained write hits exactly one row. */
  lemma {:induction false} PublishIsSerializable(h: seq<Store>, a: Attempt)
    requires |h| > 0 && Ordered(h) && AllInv(h) && AttemptFrom(h, a) && Decide(a).Ready?
    ensures var db, planned := h[|h| - 1], Decide(a).planned;
            if GuardHolds(db, a, planned)
            then Publish(a, db) == (Published, Fold(Writes(a, planned), db))
                 && Commits(db, a, planned, Publish(a, db).1) && AnyChanged(planned)
            else Publish(a, db) == (ConditionMissed, db)
  {
    var db, planned := h[|h| - 1], Decide(a).planned;
    DecisionShape(a);
    PlanIsSound(h, a);
    CommitInstalls(db, a, planned);
    if GuardHolds(db, a, planned) { GuardMeansAllCurrent(h, a); }
  }

  lemma {:induction false} GuardMeansAllCurrent(h: seq<Store>, a: Attempt)
    requires |h| > 0 && Ordered(h) && AllInv(h) && AttemptFrom(h, a) && Decide(a).Ready?
    requires GuardHolds(h[|h| - 1], a, Decide(a).planned)
    ensures forall i :: 0 <= i < |Decide(a).planned| ==> PlanMatches(h[|h| - 1], Decide(a).planned[i])
  {
    var db, planned := h[|h| - 1], Decide(a).planned;
    forall i | 0 <= i < |planned| ensures PlanMatches(db, planned[i]) {
      assert EventMatches(db, a, planned[i]);
      GuardMeansCurrent(h, a, i);
    }
  }

  lemma {:induction false} StepIsMono(past: seq<Store>, next: Store)
    requires |past| > 0 && Ordered(past) && AllInv(past) && Step(past, next)
    ensures Inv(next) && Mono(past[|past| - 1], next)
  {
    var db := past[|past| - 1];
    if OtherWriter(db, next) {
      OtherWriterIsMono(db, next);
    } else {
      var a :| AttemptFrom(past, a) && next == Publish(a, db).1;
      if Decide(a).Ready? {
        PublishIsSerializable(past, a);
        if GuardHolds(db, a, Decide(a).planned) {
          CommitIsMono(db, a, Decide(a).planned, next);
          CommitKeepsInv(db, a, Decide(a).planned, next);
        }
      }
    }
  }

  /** In every reachable state the invariant holds, and every earlier state is related to every later one. */
  lemma {:induction false} RunIsOrdered(h: seq<Store>)
    requires ValidRun(h)
    ensures Ordered(h) && AllInv(h)
  {
    if |h| > 1 {
      var k := |h| - 1;
      var past := h[..k];
      RunIsOrdered(past);
      StepIsMono(past, h[k]);
      forall i | 0 <= i < |h| ensures Inv(h[i]) {
        if i < k { assert past[i] == h[i]; }
      }
      OrderedExtends(h, k);
    }
  }

  lemma {:induction false} OrderedExtends(h: seq<Store>, k: nat)
    requires |h| == k + 1 && k > 0 && Ordered(h[..k]) && Mono(h[k-1], h[k])
    ensures Ordered(h)
  {
    var past := h[..k];
    forall i, j | 0 <= i <= j < |h| ensures Mono(h[i], h[j]) {
      if j < k {
        assert past[i] == h[i] && past[j] == h[j];
      } else if i < k {
        assert Mono(past[i], past[k-1]) && past[i] == h[i] && past[k-1] == h[k-1];
        MonoTrans(h[i], h[k-1], h[k]);
      } else {
        MonoRefl(h[k]);
      }
    }
  }

  lemma MonoRefl(a: Store)
    ensures Mono(a, a)
  {
  }

  // ---------------------------------------------------------------- main results

  /** Any two states of a run that give a milestone the same public revision show it identically, and
      its projection is always there at that revision with those facts. */
  lemma {:induction false} PublicRevisionDeterminesContent(h: seq<Store>, i: nat, j: nat, n: NodeId)
    requires ValidRun(h) && i <= j < |h| && NodeKey(n) in h[i].rows
    ensures GoodNode(h[i], n) && GoodNode(h[j], n) && ProjectionAgrees(h[i], n) && ProjectionAgrees(h[j], n)
    ensures h[i].rows[NodeKey(n)].publicRevision <= h[j].rows[NodeKey(n)].publicRevision
    ensures h[i].rows[NodeKey(n)].publicRevision == h[j].rows[NodeKey(n)].publicRevision ==>
        NodeView(h[i], n) == NodeView(h[j], n)
  {
    RunIsOrdered(h);
    assert Mono(h[i], h[j]);
    assert PublicKept(h[i], h[j], n);
    StoredRowIsOk(h[i], NodeKey(n));
    StoredRowIsOk(h[j], NodeKey(n));
  }

  /** The event revision determines the whole event, milestones included. */
  lemma {:induction false} EventRevisionDeterminesFacts(h: seq<Store>, i: nat, j: nat, e: string)
    requires ValidRun(h) && i <= j < |h| && EventKey(e) in h[i].rows
    ensures h[i].rows[EventKey(e)].EventCell? && EventKey(e) in h[j].rows && h[j].rows[EventKey(e)].EventCell?
    ensures h[i].rows[EventKey(e)].eventRevision <= h[j].rows[EventKey(e)].eventRevision
    ensures h[i].rows[EventKey(e)].eventRevision == h[j].rows[EventKey(e)].eventRevision ==>
              h[i].rows[EventKey(e)] == h[j].rows[EventKey(e)]
              && forall key :: RowAt(h[i], NodeKey(NodeId(e, key))) == RowAt(h[j], NodeKey(NodeId(e, key)))
  {
    RunIsOrdered(h);
    assert Mono(h[i], h[j]);
    assert FactsKept(h[i], h[j], e);
    StoredRowIsOk(h[i], EventKey(e));
  }

  /** The schedule revision determines every clock, type and alarm eligibility reminders depend on. */
  lemma {:induction false} ScheduleRevisionDeterminesReminders(h: seq<Store>, i: nat, j: nat, e: string)
    requires ValidRun(h) && i <= j < |h| && EventKey(e) in h[i].rows
    ensures h[i].rows[EventKey(e)].EventCell? && EventKey(e) in h[j].rows && h[j].rows[EventKey(e)].EventCell?
    ensures h[i].rows[EventKey(e)].scheduleRevision <= h[j].rows[EventKey(e)].scheduleRevision
    ensures h[i].rows[EventKey(e)].scheduleRevision == h[j].rows[EventKey(e)].scheduleRevision ==>
              forall key :: ReminderAt(h[i], NodeId(e, key)) == ReminderAt(h[j], NodeId(e, key))
  {
    RunIsOrdered(h);
    assert Mono(h[i], h[j]);
    assert RemindersKept(h[i], h[j], e);
    StoredRowIsOk(h[i], EventKey(e));
  }

  /** A feed's SEQUENCE (section 3.8.7.4 of RFC 5545). */
  function FeedSequence(publicRevision: nat, viewRevision: nat): Option<nat> {
    if publicRevision + viewRevision >= 0x7fff_ffff then None else Some(publicRevision + viewRevision)
  }

  /** When what a feed shows of a milestone differs, its SEQUENCE has strictly grown, unless the view
      revision fell or the sequence space is used up. */
  lemma {:induction false} SequenceRisesWithContent(h: seq<Store>, i: nat, j: nat, n: NodeId, v: nat, v': nat)
    requires ValidRun(h) && i <= j < |h| && NodeKey(n) in h[i].rows && v <= v'
    requires GoodNode(h[i], n) && GoodNode(h[j], n) && NodeView(h[i], n) != NodeView(h[j], n)
    ensures var before := FeedSequence(h[i].rows[NodeKey(n)].publicRevision, v);
            var after := FeedSequence(h[j].rows[NodeKey(n)].publicRevision, v');
            before.Some? && after.Some? ==> before.value < after.value
  {
    PublicRevisionDeterminesContent(h, i, j, n);
  }

  lemma {:induction false} PublishingLinks(h: seq<Store>, a: Attempt, db': Store)
    requires |h| > 0 && Ordered(h) && AllInv(h) && AttemptFrom(h, a)
    requires Publish(a, h[|h| - 1]) == (Published, db')
    ensures LinkedTo(db', a.candidateId)
    ensures !LinkedTo(h[|h| - 1], a.candidateId)
  {
    PublishIsSerializable(h, a);
    CommitLinks(h[|h| - 1], a, Decide(a).planned, db');
  }

  lemma {:induction false} OrderedPrefix(h: seq<Store>, n: nat)
    requires Ordered(h) && AllInv(h) && n <= |h|
    ensures Ordered(h[..n]) && AllInv(h[..n])
  {
    var past := h[..n];
    forall i, j | 0 <= i <= j < |past| ensures Mono(past[i], past[j]) { assert past[i] == h[i] && past[j] == h[j]; }
    forall i | 0 <= i < |past| ensures Inv(past[i]) { assert past[i] == h[i]; }
  }

  /** Whatever ran in between, a candidate that has been published is not published again. */
  lemma {:induction false} PublishesAtMostOnce(h: seq<Store>, k: nat, first: Attempt, second: Attempt)
    requires ValidRun(h) && k + 1 < |h|
    requires AttemptFrom(h[..k+1], first) && Publish(first, h[k]) == (Published, h[k+1])
    requires AttemptFrom(h, second) && second.candidateId == first.candidateId
    ensures Publish(second, h[|h| - 1]).0 != Published
  {
    RunIsOrdered(h);
    PublishedStaysLinked(h, k, first);
    LinkedIsNotPublished(h, second);
  }

  lemma {:induction false} FirstPublicationLinks(h: seq<Store>, k: nat, first: Attempt)
    requires Ordered(h) && AllInv(h) && k + 1 < |h|
    requires AttemptFrom(h[..k+1], first) && Publish(first, h[k]) == (Published, h[k+1])
    ensures LinkedTo(h[k+1], first.candidateId)
  {
    var past := h[..k+1];
    OrderedPrefix(h, k + 1);
    assert past[|past| - 1] == h[k];
    PublishingLinks(past, first, h[k+1]);
  }

  lemma {:induction false} PublishedStaysLinked(h: seq<Store>, k: nat, first: Attempt)
    requires Ordered(h) && AllInv(h) && k + 1 < |h|
    requires AttemptFrom(h[..k+1], first) && Publish(first, h[k]) == (Published, h[k+1])
    ensures LinkedTo(h[|h| - 1], first.candidateId)
  {
    FirstPublicationLinks(h, k, first);
    assert Mono(h[k+1], h[|h| - 1]);
    LinksStay(h[k+1], h[|h| - 1], first.candidateId);
  }

  lemma {:induction false} LinkedIsNotPublished(h: seq<Store>, a: Attempt)
    requires |h| > 0 && Ordered(h) && AllInv(h) && AttemptFrom(h, a) && LinkedTo(h[|h| - 1], a.candidateId)
    ensures Publish(a, h[|h| - 1]).0 != Published
  {
    var result := Publish(a, h[|h| - 1]);
    if result.0 == Published { PublishingLinks(h, a, result.1); }
  }

  lemma LinksStay(a: Store, b: Store, candidate: string)
    requires Mono(a, b) && LinkedTo(a, candidate)
    ensures LinkedTo(b, candidate)
  {
    var e :| e in a.evidence && e.candidate == candidate && e.event.Some?;
    assert e in b.evidence;
  }
}
