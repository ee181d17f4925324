/** The rows the publisher reads and writes, and the guarded writes it chains behind its guard. */
module FactStore {
  import opened Wrappers
  import opened Time
  import opened Changes
  import Cas

  /** A milestone's identity is a hash of its event and its stable key, taken as injective. */
  datatype NodeId = NodeId(event: string, key: string)

  datatype Dedupe = Rebuild(candidate: string) | Notice(event: string, revision: nat)

  datatype Key =
    | EventKey(event: string)
    | NodeKey(node: NodeId)
    | ProjectionKey(projected: NodeId)
    | RevisionKey(revised: string, revision: nat)
    | OutboxKey(dedupe: Dedupe)
    | PendingKey

  datatype ChangeKind =
    | Created | ContentUpdated | ScheduleUpdated | StatusUpdated | ManualCorrected | RetractedKind | Associated

  datatype Actor = RuleActor | ModelActor | ManualActor

  datatype Cell =
    | EventCell(game: string, region: string, facts: EventFacts, eventRevision: nat, scheduleRevision: nat)
    | NodeCell(nodeType: NodeType, title: string, time: TimeColumns, publicRevision: nat, locked: bool)
    | ProjectionCell(event: string, revision: nat, eventFacts: EventFacts, nodeFacts: NodeFacts)
    | RevisionCell(kind: ChangeKind, actor: Actor, reason: Option<string>)
    | OutboxCell(schedule: nat, changedNodes: seq<NodeId>)
    | PendingCell(pending: bool, updatedAt: int)

  datatype Evidence = Evidence(
    candidate: string, event: Option<string>, node: Option<NodeId>, articleVersion: string, ref: string)

  datatype Run = Run(succeeded: bool, articleVersion: string, extractor: Option<Actor>)

  datatype Candidate<P> = Candidate(updatedAt: int, proposal: P, approved: bool, run: Option<Run>)

  datatype ArticleVersion = ArticleVersion(article: string, number: int)

  datatype Db<P> = Db(
    rows: map<Key, Cell>,
    evidence: set<Evidence>,
    candidates: map<string, Candidate<P>>,
    articles: map<string, ArticleVersion>)

  function Version(c: Cell): int {
    match c
    case EventCell(_, _, _, r, _) => r
    case NodeCell(_, _, _, r, _) => r
    case ProjectionCell(_, r, _, _) => r
    case PendingCell(_, at) => at
    case _ => 0
  }

  predicate SameTable(a: Cell, b: Cell) {
    match a
    case EventCell(_, _, _, _, _) => b.EventCell?
    case NodeCell(_, _, _, _, _) => b.NodeCell?
    case ProjectionCell(_, _, _, _) => b.ProjectionCell?
    case RevisionCell(_, _, _) => b.RevisionCell?
    case OutboxCell(_, _) => b.OutboxCell?
    case PendingCell(_, _) => b.PendingCell?
  }

  /** Columns an UPDATE does not set keep their stored values. */
  function Patched(stored: Cell, set_: Cell): Cell {
    if stored.EventCell? && set_.EventCell? then set_.(game := stored.game, region := stored.region)
    else if stored.ProjectionCell? && set_.ProjectionCell? then set_.(event := stored.event)
    else set_
  }

  datatype Write =
    | Add(key: Key, cell: Cell)
    | Modify(key: Key, version: int, cell: Cell)
    | AddEvidence(evidence: Evidence)

  function Matches<P>(w: Write, db: Db<P>): bool
    requires w.Modify?
  {
    w.key in db.rows && SameTable(db.rows[w.key], w.cell) && Version(db.rows[w.key]) == w.version
  }

  function Written<P>(w: Write, db: Db<P>): Db<P> {
    match w
    case Add(key, cell) => db.(rows := db.rows[key := cell])
    case Modify(key, _, cell) =>
      if key in db.rows then db.(rows := db.rows[key := Patched(db.rows[key], cell)]) else db
    case AddEvidence(e) => db.(evidence := db.evidence + {e})
  }

  function RunInsert<P>(w: Write): Db<P> -> Cas.Exec<Db<P>> {
    (db: Db<P>) =>
      if w.Add? && w.key in db.rows then Cas.SqlError else Cas.Rows(Written(w, db), 1, 0)
  }

  function RunUpdate<P>(w: Write): Db<P> -> Cas.Exec<Db<P>> {
    (db: Db<P>) =>
      if w.Modify? && Matches(w, db) then Cas.Rows(Written(w, db), 1, 0) else Cas.NoRows
  }

  function Compile<P>(w: Write): Cas.Effect<Db<P>> {
    if w.Modify? then Cas.Update(1, RunUpdate(w), false) else Cas.Insert(1, RunInsert(w))
  }

  function CompileAll<P>(ws: seq<Write>): (es: seq<Cas.Effect<Db<P>>>)
    ensures |es| == |ws|
  {
    if ws == [] then [] else [Compile(ws[0])] + CompileAll(ws[1..])
  }

  // ---------------------------------------------------------------- chains of writes

  predicate Applicable<P>(w: Write, db: Db<P>) {
    match w
    case Add(key, _) => key !in db.rows
    case Modify(_, _, _) => Matches(w, db)
    case AddEvidence(_) => true
  }

  predicate Touches(w: Write, key: Key) { !w.AddEvidence? && w.key == key }

  predicate DistinctKeys(ws: seq<Write>) {
    forall i, j :: 0 <= i < j < |ws| && !ws[i].AddEvidence? && !ws[j].AddEvidence? ==> ws[i].key != ws[j].key
  }

  predicate AllApplicable<P>(ws: seq<Write>, db: Db<P>) {
    forall i :: 0 <= i < |ws| ==> Applicable(ws[i], db)
  }

  function Fold<P>(ws: seq<Write>, db: Db<P>): Db<P> {
    if ws == [] then db else Fold(ws[1..], Written(ws[0], db))
  }

  lemma StillApplicable<P>(ws: seq<Write>, db: Db<P>)
    requires ws != [] && DistinctKeys(ws) && AllApplicable(ws, db)
    ensures DistinctKeys(ws[1..]) && AllApplicable(ws[1..], Written(ws[0], db))
  {
    var tail := ws[1..];
    forall i | 0 <= i < |tail| ensures Applicable(tail[i], Written(ws[0], db)) {
      assert tail[i] == ws[i+1] && Applicable(ws[i+1], db);
      if !ws[0].AddEvidence? && !tail[i].AddEvidence? { assert ws[0].key != ws[i+1].key; }
    }
    forall i, j | 0 <= i < j < |tail| && !tail[i].AddEvidence? && !tail[j].AddEvidence?
        ensures tail[i].key != tail[j].key {
      assert tail[i] == ws[i+1] && tail[j] == ws[j+1];
    }
  }

  /** Writes to different rows that all apply to the state before the chain each touch exactly one
      row when the chain runs, so nothing in it is skipped. */
  lemma {:induction false} EveryWriteHitsOneRow<P>(ws: seq<Write>, db: Db<P>)
    requires DistinctKeys(ws) && AllApplicable(ws, db)
    ensures var b := Cas.RunChain(CompileAll(ws), db, 1);
            b.Done? && b.state == Fold(ws, db) && (forall i :: 0 <= i < |ws| ==> b.metas[i] == 1)
  {
    if ws != [] {
      assert Applicable(ws[0], db);
      StillApplicable(ws, db);
      EveryWriteHitsOneRow(ws[1..], Written(ws[0], db));
      var es := CompileAll<P>(ws);
      assert es[0] == Compile(ws[0]) && es[1..] == CompileAll(ws[1..]);
      assert es[0].Chained(db, 1) == Cas.Rows(Written(ws[0], db), 1, 0);
    }
  }

  predicate OneRowEffect<P>(e: Cas.Effect<Db<P>>) {
    e.Expected() == 1 && !e.Optional() && (e.Update? ==> e.assignments > 0) && (e.Insert? ==> e.rows > 0)
  }

  lemma {:induction false} CompiledShape<P>(ws: seq<Write>)
    ensures forall i :: 0 <= i < |ws| ==> OneRowEffect<P>(CompileAll<P>(ws)[i])
  {
    if ws != [] {
      CompiledShape<P>(ws[1..]);
      assert OneRowEffect<P>(Compile<P>(ws[0]));
      forall i | 0 <= i < |ws| ensures OneRowEffect<P>(CompileAll<P>(ws)[i]) {
        if i > 0 { assert CompileAll<P>(ws)[i] == CompileAll<P>(ws[1..])[i-1]; }
      }
    }
  }

  /** A row no write touches is unchanged; the tables writes do not reach are unchanged. */
  lemma {:induction false} FoldElsewhere<P>(ws: seq<Write>, db: Db<P>, key: Key)
    requires forall i :: 0 <= i < |ws| ==> !Touches(ws[i], key)
    ensures key in Fold(ws, db).rows <==> key in db.rows
    ensures key in db.rows ==> Fold(ws, db).rows[key] == db.rows[key]
  {
    if ws != [] {
      assert !Touches(ws[0], key);
      forall i | 0 <= i < |ws[1..]| ensures !Touches(ws[1..][i], key) { assert ws[1..][i] == ws[i+1]; }
      FoldElsewhere(ws[1..], Written(ws[0], db), key);
    }
  }

  function NewCell<P>(w: Write, db: Db<P>): Cell
    requires !w.AddEvidence? && Applicable(w, db)
  {
    if w.Add? then w.cell else Patched(db.rows[w.key], w.cell)
  }

  lemma {:induction false} FoldAt<P>(ws: seq<Write>, db: Db<P>, i: nat)
    requires DistinctKeys(ws) && AllApplicable(ws, db)
    requires i < |ws| && !ws[i].AddEvidence?
    ensures Applicable(ws[i], db)
    ensures ws[i].key in Fold(ws, db).rows && Fold(ws, db).rows[ws[i].key] == NewCell(ws[i], db)
  {
    assert Applicable(ws[i], db);
    StillApplicable(ws, db);
    var db' := Written(ws[0], db);
    if i == 0 {
      forall j | 0 <= j < |ws[1..]| ensures !Touches(ws[1..][j], ws[0].key) { assert ws[1..][j] == ws[j+1]; }
      FoldElsewhere(ws[1..], db', ws[0].key);
    } else {
      assert ws[1..][i-1] == ws[i];
      FoldAt(ws[1..], db', i - 1);
      if !ws[0].AddEvidence? { assert ws[0].key != ws[i].key; }
    }
  }

  /** The same, for a write named by its value. */
  lemma FoldOf<P>(ws: seq<Write>, db: Db<P>, w: Write)
    requires DistinctKeys(ws) && AllApplicable(ws, db) && w in ws && !w.AddEvidence?
    ensures Applicable(w, db)
    ensures w.key in Fold(ws, db).rows && Fold(ws, db).rows[w.key] == NewCell(w, db)
  {
    var i :| 0 <= i < |ws| && ws[i] == w;
    FoldAt(ws, db, i);
  }

  lemma DistinctConcat(a: seq<Write>, b: seq<Write>)
    requires DistinctKeys(a) && DistinctKeys(b)
    requires forall x, y :: x in a && y in b && !x.AddEvidence? && !y.AddEvidence? ==> x.key != y.key
    ensures DistinctKeys(a + b)
  {
  }

  lemma {:induction false} FoldTables<P>(ws: seq<Write>, db: Db<P>)
    ensures Fold(ws, db).candidates == db.candidates && Fold(ws, db).articles == db.articles
    ensures db.evidence <= Fold(ws, db).evidence
    ensures forall e :: e in Fold(ws, db).evidence <==> e in db.evidence || AddEvidence(e) in ws
  {
    if ws != [] {
      FoldTables(ws[1..], Written(ws[0], db));
      assert ws == [ws[0]] + ws[1..];
    }
  }
}
