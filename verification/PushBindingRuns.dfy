/** Push bindings over whole runs with a clock that never goes back: every cap but the total holds, the
    total passes its cap in exactly one way, and a new round starts from nothing. */
module PushBindingRuns {
  import opened Wrappers
  import opened PushBindings
  import Cas

  datatype Step =
    | Create(registration: Registration)
    | Act(action: Action)
    | SafetyPause(user: string)
    | LeaseSweep(ids: set<string>)
    | Clean(ids: set<string>)
    | EndpointGone(id: string)

  /** One step at the time `now`. */
  function Apply(t: Store, s: Step, now: int): Store {
    match s
    case Create(r) => Creating(t, r.(now := now)).1
    case Act(a) => Acted(t, a, now)
    case SafetyPause(user) => t.(rows := AllStopped(t.rows, UserSet(t.rows, user), now))
    case LeaseSweep(ids) => t.(rows := AllStopped(t.rows, LeaseOver(t.rows, ids, now), now))
    case Clean(ids) => t.(rows := Without(t.rows, CleanSet(t.rows, ids, now)))
    case EndpointGone(id) => t.(rows := WithGone(t.rows, id, now))
  }

  datatype Timed = Timed(step: Step, at: int)

  predicate Begins(h: seq<Store>) { |h| > 0 && h[0] == Store(map[], map[]) }

  predicate Follows(h: seq<Store>, steps: seq<Timed>) {
    && |h| == |steps| + 1
    && forall i :: 0 <= i < |steps| ==> h[i+1] == Apply(h[i], steps[i].step, steps[i].at)
  }

  predicate ClockHolds(steps: seq<Timed>) {
    forall i, j :: 0 <= i <= j < |steps| ==> steps[i].at <= steps[j].at
  }

  predicate ValidRun(h: seq<Store>, steps: seq<Timed>) {
    Begins(h) && Follows(h, steps) && ClockHolds(steps)
  }

  // ---------------------------------------------------------------- the caps

  ghost predicate UsersFine(rows: map<string, Binding>) {
    forall user :: |UserSet(rows, user)| <= PUSH_USER_MAX
  }

  predicate DaysFine(created: map<int, nat>) {
    forall day :: day in created ==> created[day] <= PUSH_NEW_DAY
  }

  predicate UniqueEndpoints(rows: map<string, Binding>) {
    forall a, b :: a in rows && b in rows && a != b ==> rows[a].endpoint != rows[b].endpoint
  }

  predicate RowFine(b: Binding) {
    && |b.challenges| <= b.attempts <= PUSH_ACTIVATION_ATTEMPTS
    && (b.state == Pending ==> b.deadline.Some?)
    && (b.state != Pending ==> b.challenges == {})
  }

  predicate RowsFine(rows: map<string, Binding>) {
    forall id :: id in rows ==> RowFine(rows[id])
  }

  ghost predicate CapsHold(t: Store, now: int) {
    && |ActiveSet(t.rows)| <= PUSH_ACTIVE_MAX
    && |PendingSet(t.rows, now)| <= PUSH_PENDING_MAX
    && UsersFine(t.rows) && DaysFine(t.created) && UniqueEndpoints(t.rows) && RowsFine(t.rows)
  }

  lemma Smaller<T>(a: set<T>, b: set<T>)
    requires a <= b
    ensures |a| <= |b|
  {
    assert b == a + (b - a);
  }

  /** Waiting only ever lowers the counts. */
  lemma TimeLowersCounts(rows: map<string, Binding>, now: int, later: int)
    requires now <= later
    ensures |PendingSet(rows, later)| <= |PendingSet(rows, now)|
    ensures |TotalSet(rows, later)| <= |TotalSet(rows, now)|
  {
    Smaller(PendingSet(rows, later), PendingSet(rows, now));
    Smaller(TotalSet(rows, later), TotalSet(rows, now));
  }

  /** Steps after which every row that counts somewhere already counted there. */
  predicate Shrinks(a: map<string, Binding>, b: map<string, Binding>, now: int) {
    forall id :: id in b ==>
      && id in a && b[id].user == a[id].user && b[id].endpoint == a[id].endpoint
      && (b[id].state == Active ==> a[id].state == Active)
      && (LivePending(b[id], now) ==> LivePending(a[id], now))
  }

  lemma ShrinkKeepsCaps(t: Store, t': Store, now: int)
    requires CapsHold(t, now) && Shrinks(t.rows, t'.rows, now) && t'.created == t.created && RowsFine(t'.rows)
    ensures CapsHold(t', now)
  {
    Smaller(ActiveSet(t'.rows), ActiveSet(t.rows));
    Smaller(PendingSet(t'.rows, now), PendingSet(t.rows, now));
    forall user ensures |UserSet(t'.rows, user)| <= PUSH_USER_MAX {
      Smaller(UserSet(t'.rows, user), UserSet(t.rows, user));
    }
  }

  /** Changing one row without changing whose it is. */
  lemma SameOwners(rows: map<string, Binding>, id: string, b: Binding)
    requires id in rows && b.user == rows[id].user && b.endpoint == rows[id].endpoint && RowFine(b)
    requires UsersFine(rows) && UniqueEndpoints(rows) && RowsFine(rows)
    ensures UsersFine(rows[id := b]) && UniqueEndpoints(rows[id := b]) && RowsFine(rows[id := b])
  {
    var after := rows[id := b];
    forall user ensures |UserSet(after, user)| <= PUSH_USER_MAX { assert UserSet(after, user) == UserSet(rows, user); }
  }

  lemma ActivateCounts(rows: map<string, Binding>, id: string, now: int)
    requires id in rows && LivePending(rows[id], now)
    ensures |ActiveSet(rows[id := Activated(rows[id], now)])| == |ActiveSet(rows)| + 1
    ensures |PendingSet(rows[id := Activated(rows[id], now)], now)| <= |PendingSet(rows, now)|
  {
    assert ActiveSet(rows[id := Activated(rows[id], now)]) == ActiveSet(rows) + {id};
    assert PendingSet(rows[id := Activated(rows[id], now)], now) == PendingSet(rows, now) - {id};
  }

  lemma ResumeCounts(rows: map<string, Binding>, id: string, now: int)
    requires id in rows && rows[id].state == Paused
    ensures |PendingSet(rows[id := Resumed(rows[id], now)], now)| == |PendingSet(rows, now)| + 1
    ensures ActiveSet(rows[id := Resumed(rows[id], now)]) == ActiveSet(rows)
  {
    assert PendingSet(rows[id := Resumed(rows[id], now)], now) == PendingSet(rows, now) + {id};
  }

  lemma RowAfterIsFine(t: Store, a: Action, now: int)
    requires Hits(t, a, now) && a.id in t.rows && RowFine(t.rows[a.id])
    ensures RowFine(RowAfter(t.rows[a.id], a, now))
  {
  }

  lemma ActionKeepsCaps(t: Store, a: Action, now: int)
    requires CapsHold(t, now)
    ensures CapsHold(Acted(t, a, now), now)
  {
    if Hits(t, a, now) {
      assert a.id in t.rows && RowFine(t.rows[a.id]);
      if a.Activate? {
        ActivateCounts(t.rows, a.id, now);
        SameOwners(t.rows, a.id, Activated(t.rows[a.id], now));
      } else if a.Resume? {
        ResumeCounts(t.rows, a.id, now);
        SameOwners(t.rows, a.id, Resumed(t.rows[a.id], now));
      } else {
        RowAfterIsFine(t, a, now);
        ShrinkKeepsCaps(t, Acted(t, a, now), now);
      }
    }
  }

  lemma OthersKeepCaps(t: Store, r: Registration)
    requires CapsHold(t, r.now)
    ensures CapsHold(t.(rows := Others(t, r)), r.now)
  {
    ShrinkKeepsCaps(t, t.(rows := Others(t, r)), r.now);
  }

  lemma NewRowUsers(rows: map<string, Binding>, r: Registration)
    requires UsersFine(rows) && r.id !in rows && |UserSet(rows, r.user)| < PUSH_USER_MAX
    ensures UsersFine(rows[r.id := NewBinding(r)])
  {
    var after := rows[r.id := NewBinding(r)];
    forall u ensures |UserSet(after, u)| <= PUSH_USER_MAX {
      if u == r.user {
        assert UserSet(after, u) == UserSet(rows, u) + {r.id};
      } else {
        assert UserSet(after, u) == UserSet(rows, u);
      }
    }
  }

  lemma NewRowRows(rows: map<string, Binding>, r: Registration)
    requires UniqueEndpoints(rows) && RowsFine(rows) && r.id !in rows && !EndpointTaken(rows, r.endpoint)
    ensures UniqueEndpoints(rows[r.id := NewBinding(r)]) && RowsFine(rows[r.id := NewBinding(r)])
  {
    var after := rows[r.id := NewBinding(r)];
    assert forall id :: id in rows ==> after[id] == rows[id];
  }

  lemma NewRowPending(rows: map<string, Binding>, id: string, b: Binding, now: int)
    requires id !in rows && LivePending(b, now)
    ensures |PendingSet(rows[id := b], now)| == |PendingSet(rows, now)| + 1
    ensures ActiveSet(rows[id := b]) == ActiveSet(rows)
  {
    assert PendingSet(rows[id := b], now) == PendingSet(rows, now) + {id};
  }

  lemma NewRowTotal(rows: map<string, Binding>, id: string, b: Binding, now: int)
    requires id !in rows && Counted(b, now)
    ensures |TotalSet(rows[id := b], now)| == |TotalSet(rows, now)| + 1
  {
    assert TotalSet(rows[id := b], now) == TotalSet(rows, now) + {id};
  }

  lemma CreateKeepsCaps(t: Store, r: Registration)
    requires CapsHold(t, r.now)
    ensures CapsHold(Creating(t, r).1, r.now)
  {
    if CanCreate(t, r) && !Collides(t, r) {
      OthersKeepCaps(t, r);
      NewRowPending(Others(t, r), r.id, NewBinding(r), r.now);
      NewRowUsers(Others(t, r), r);
      NewRowRows(Others(t, r), r);
    }
  }

  lemma StepKeepsCaps(t: Store, s: Step, now: int)
    requires CapsHold(t, now)
    ensures CapsHold(Apply(t, s, now), now)
  {
    match s
    case Create(r) => CreateKeepsCaps(t, r.(now := now));
    case Act(a) => ActionKeepsCaps(t, a, now);
    case SafetyPause(user) => StoppingKeepsCaps(t, UserSet(t.rows, user), now);
    case LeaseSweep(ids) => StoppingKeepsCaps(t, LeaseOver(t.rows, ids, now), now);
    case Clean(ids) => CleaningKeepsCaps(t, CleanSet(t.rows, ids, now), now);
    case EndpointGone(id) => GoneKeepsCaps(t, id, now);
  }

  lemma CleaningKeepsCaps(t: Store, ids: set<string>, now: int)
    requires CapsHold(t, now)
    ensures CapsHold(t.(rows := Without(t.rows, ids)), now)
  {
    ShrinkKeepsCaps(t, t.(rows := Without(t.rows, ids)), now);
  }

  lemma GoneKeepsCaps(t: Store, id: string, now: int)
    requires CapsHold(t, now)
    ensures CapsHold(t.(rows := WithGone(t.rows, id, now)), now)
  {
    ShrinkKeepsCaps(t, t.(rows := WithGone(t.rows, id, now)), now);
  }

  lemma StoppingKeepsCaps(t: Store, ids: set<string>, now: int)
    requires CapsHold(t, now)
    ensures CapsHold(t.(rows := AllStopped(t.rows, ids, now)), now)
  {
    var t' := t.(rows := AllStopped(t.rows, ids, now));
    forall id | id in t'.rows ensures RowFine(t'.rows[id]) { assert RowFine(t.rows[id]); }
    ShrinkKeepsCaps(t, t', now);
  }

  function TimeOf(steps: seq<Timed>, i: nat): int
    requires i <= |steps|
  {
    if i == 0 then (if steps == [] then 0 else steps[0].at) else steps[i-1].at
  }

  lemma EmptyIsFine(t: Store, now: int)
    requires t == Store(map[], map[])
    ensures CapsHold(t, now) && TotalSet(t.rows, now) == {}
  {
    assert ActiveSet(t.rows) == {} && PendingSet(t.rows, now) == {};
    forall user ensures |UserSet(t.rows, user)| <= PUSH_USER_MAX { assert UserSet(t.rows, user) == {}; }
  }

  /** Whatever requests race, no cap but the total is ever exceeded. */
  lemma {:induction false} CapsAlwaysHold(h: seq<Store>, steps: seq<Timed>, i: nat, now: int)
    requires ValidRun(h, steps) && i < |h| && TimeOf(steps, i) <= now
    ensures CapsHold(h[i], now)
  {
    if i == 0 {
      EmptyIsFine(h[0], now);
    } else {
      var at := steps[i-1].at;
      CapsAlwaysHold(h, steps, i - 1, at);
      StepKeepsCaps(h[i-1], steps[i-1].step, at);
      TimeLowersCounts(h[i].rows, at, now);
    }
  }

  // ---------------------------------------------------------------- the total

  /** Pending rows whose deadline has passed, among those a step pauses. */
  function ExpiredIn(rows: map<string, Binding>, ids: set<string>, now: int): set<string> {
    set id | id in ids && id in rows && rows[id].state == Pending && !LivePending(rows[id], now)
  }

  /** The rows a step pauses. */
  function PausedBy(t: Store, s: Step, now: int): set<string> {
    match s
    case Act(a) => if a.Pause? && OwnRow(t, a.id, a.user) && a.allowed then {a.id} else {}
    case SafetyPause(user) => UserSet(t.rows, user)
    case LeaseSweep(ids) => LeaseOver(t.rows, ids, now)
    case _ => {}
  }

  function ExpiredBy(t: Store, s: Step, now: int): set<string> { ExpiredIn(t.rows, PausedBy(t, s, now), now) }

  function Total(t: Store, now: int): nat { |TotalSet(t.rows, now)| }

  /** Pausing raises the total by exactly the pending rows whose deadline had passed. */
  lemma PausingRaisesTotal(rows: map<string, Binding>, ids: set<string>, now: int)
    ensures |TotalSet(AllStopped(rows, ids, now), now)| == |TotalSet(rows, now)| + |ExpiredIn(rows, ids, now)|
  {
    var before, expired := TotalSet(rows, now), ExpiredIn(rows, ids, now);
    assert TotalSet(AllStopped(rows, ids, now), now) == before + expired;
    assert before !! expired;
  }

  predicate Pauses(s: Step) { s.SafetyPause? || s.LeaseSweep? || (s.Act? && s.action.Pause?) }

  lemma PauseIsAllStopped(t: Store, s: Step, now: int)
    requires Pauses(s)
    ensures Apply(t, s, now).rows == AllStopped(t.rows, PausedBy(t, s, now), now)
  {
  }

  /** A pausing step changes the total by exactly the expired pending rows it pauses. */
  lemma PauseTotal(t: Store, s: Step, now: int)
    requires Pauses(s)
    ensures Total(Apply(t, s, now), now) == Total(t, now) + |ExpiredBy(t, s, now)|
  {
    PauseIsAllStopped(t, s, now);
    PausingRaisesTotal(t.rows, PausedBy(t, s, now), now);
  }

  lemma CreateTotal(t: Store, r: Registration)
    ensures Creating(t, r).1.rows == t.rows || Total(Creating(t, r).1, r.now) <= PUSH_TOTAL_MAX
  {
    if CanCreate(t, r) && !Collides(t, r) { NewRowTotal(Others(t, r), r.id, NewBinding(r), r.now); }
  }

  /** How one step moves the total: a registration stays under the cap, and apart from that only
      pausing an expired pending row raises it. */
  lemma StepTotal(t: Store, s: Step, now: int)
    ensures var before, after := Total(t, now), Total(Apply(t, s, now), now);
            if Pauses(s) then after == before + |ExpiredBy(t, s, now)|
            else ExpiredBy(t, s, now) == {} && (after <= before || (s.Create? && after <= PUSH_TOTAL_MAX))
  {
    if Pauses(s) {
      PauseTotal(t, s, now);
    } else if s.Create? {
      CreateTotal(t, s.registration.(now := now));
    } else {
      Smaller(TotalSet(Apply(t, s, now).rows, now), TotalSet(t.rows, now));
    }
  }

  /** The only way past the cap, in both directions: a step from a total within the cap leaves it above the
      cap exactly when the expired pending rows it pauses do not fit any more. */
  lemma PassesCapIff(t: Store, s: Step, now: int)
    requires Total(t, now) <= PUSH_TOTAL_MAX
    ensures Total(Apply(t, s, now), now) > PUSH_TOTAL_MAX <==>
              Total(t, now) + |ExpiredBy(t, s, now)| > PUSH_TOTAL_MAX
  {
    StepTotal(t, s, now);
  }

  /** One user pause raises the total by one exactly when it hits an expired pending row. */
  lemma PauseRaisesTotalIff(t: Store, id: string, user: string, now: int)
    ensures var expired := OwnRow(t, id, user) && t.rows[id].state == Pending && !LivePending(t.rows[id], now);
            Total(Apply(t, Act(Pause(id, user, true)), now), now) == Total(t, now) + (if expired then 1 else 0)
  {
    var s := Act(Pause(id, user, true));
    PauseTotal(t, s, now);
    assert ExpiredBy(t, s, now) ==
           if OwnRow(t, id, user) && t.rows[id].state == Pending && !LivePending(t.rows[id], now) then {id} else {};
  }

  /** Pending rows paused after their deadline, summed over a run. */
  function ExpiredPauses(h: seq<Store>, steps: seq<Timed>, i: nat): nat
    requires |h| == |steps| + 1 && i < |h|
  {
    if i == 0 then 0
    else ExpiredPauses(h, steps, i - 1) + |ExpiredBy(h[i-1], steps[i-1].step, steps[i-1].at)|
  }

  /** The total stays within its cap plus the pending rows that were paused after their deadline. */
  lemma {:induction false} TotalIsBounded(h: seq<Store>, steps: seq<Timed>, i: nat, now: int)
    requires ValidRun(h, steps) && i < |h| && TimeOf(steps, i) <= now
    ensures Total(h[i], now) <= PUSH_TOTAL_MAX + ExpiredPauses(h, steps, i)
  {
    if i == 0 {
      EmptyIsFine(h[0], now);
    } else {
      var at := steps[i-1].at;
      TotalIsBounded(h, steps, i - 1, at);
      NextTotal(h[i-1], steps[i-1].step, at, now, PUSH_TOTAL_MAX + ExpiredPauses(h, steps, i - 1));
    }
  }

  lemma NextTotal(t: Store, s: Step, at: int, now: int, bound: nat)
    requires at <= now && Total(t, at) <= bound && PUSH_TOTAL_MAX <= bound
    ensures Total(Apply(t, s, at), now) <= bound + |ExpiredBy(t, s, at)|
  {
    StepTotal(t, s, at);
    TimeLowersCounts(Apply(t, s, at).rows, at, now);
  }

  // ---------------------------------------------------------------- rounds

  /** The challenge activates nothing: the row is gone or does not hold it. */
  predicate Dead(t: Store, id: string, challenge: string) {
    id in t.rows ==> challenge !in t.rows[id].challenges
  }

  predicate SendsChallenge(s: Step, id: string, challenge: string) {
    s.Act? && s.action.Send? && s.action.id == id && s.action.challenge == challenge
  }

  lemma DeadStays(t: Store, s: Step, now: int, id: string, challenge: string)
    requires Dead(t, id, challenge) && !SendsChallenge(s, id, challenge)
    ensures Dead(Apply(t, s, now), id, challenge)
  {
  }

  /** Once a binding has been resumed, a challenge that is not sent in the new round never activates it, in
      any later state: no round is finished by a challenge of an earlier one. */
  lemma {:induction false} ResumedNeedsNewChallenge(
      h: seq<Store>, steps: seq<Timed>, i: nat, j: nat, resume: Action, challenge: string)
    requires ValidRun(h, steps) && i < j < |h|
    requires resume.Resume? && steps[i].step == Act(resume) && Hits(h[i], resume, steps[i].at)
    requires forall k :: i < k < j ==> !SendsChallenge(steps[k].step, resume.id, challenge)
    ensures Dead(h[j], resume.id, challenge)
    ensures forall receipt, now, active :: !CanActivate(h[j], resume.id, receipt, challenge, now, active)
    decreases j
  {
    assert h[j] == Apply(h[j-1], steps[j-1].step, steps[j-1].at);
    if j > i + 1 {
      ResumedNeedsNewChallenge(h, steps, i, j - 1, resume, challenge);
      DeadStays(h[j-1], steps[j-1].step, steps[j-1].at, resume.id, challenge);
    }
  }
}
