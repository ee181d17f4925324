/** A complete run whose bindings pass the total cap: one binding waits past its deadline while others fill
    the cap, and is paused afterwards. */
module PushBindingOverflow {
  import opened Wrappers
  import opened PushBindings
  import opened PushBindingRuns

  /** Fifty registrations a day, evenly spread; an activation round is over long before the next one. */
  const GAP_MS: int := 1_728_000

  /** Different numbers have different names. */
  function Name(n: nat): (s: string)
    ensures |s| == n
  {
    seq(n, _ => 'b')
  }

  /** The n-th registration: five bindings to a user, fifty to a day. */
  function Nth(n: nat): Registration {
    Registration(Name(n), Name(n / 5), Name(n), "token", None, n * GAP_MS, n / 50, true)
  }

  function NthPaused(n: nat): Binding { Stopped(NewBinding(Nth(n)), n * GAP_MS) }

  /** The store once `n` bindings have been registered and paused. */
  function Filled(n: nat): Store {
    if n == 0 then Store(map[], map[])
    else
      var t := Filled(n - 1);
      Store(t.rows[Name(n - 1) := NthPaused(n - 1)], t.created[(n - 1) / 50 := CreatedOn(t, (n - 1) / 50) + 1])
  }

  function Clamp(n: int, top: nat): nat { if n < 0 then 0 else if n < top then n else top }

  lemma {:induction false} FilledRows(n: nat)
    ensures forall id :: id in Filled(n).rows ==> |id| < n && Filled(n).rows[id] == NthPaused(|id|)
    ensures |Filled(n).rows| == n && Name(n) !in Filled(n).rows
  {
    if n > 0 {
      FilledRows(n - 1);
      assert Name(n - 1) !in Filled(n - 1).rows;
    }
  }

  lemma NthIs(n: nat)
    ensures var b := NthPaused(n); b.state == Paused && b.endpoint == Name(n) && b.user == Name(n / 5)
  {
  }

  lemma FilledShape(n: nat)
    ensures forall id :: id in Filled(n).rows ==>
              var b := Filled(n).rows[id]; b.state == Paused && |b.endpoint| < n
  {
    FilledRows(n);
    forall id | id in Filled(n).rows
      ensures Filled(n).rows[id].state == Paused && |Filled(n).rows[id].endpoint| < n
    {
      NthIs(|id|);
    }
  }

  lemma AllPaused(rows: map<string, Binding>, now: int)
    requires forall id :: id in rows ==> rows[id].state == Paused
    ensures |TotalSet(rows, now)| == |rows| && PendingSet(rows, now) == {}
  {
    assert TotalSet(rows, now) == rows.Keys;
  }

  lemma FilledCounts(n: nat, now: int)
    ensures Total(Filled(n), now) == n && PendingSet(Filled(n).rows, now) == {}
    ensures !EndpointTaken(Filled(n).rows, Name(n))
  {
    FilledRows(n);
    FilledShape(n);
    AllPaused(Filled(n).rows, now);
  }

  lemma UserOfNew(rows: map<string, Binding>, id: string, b: Binding, user: string)
    requires id !in rows
    ensures |UserSet(rows[id := b], user)| == |UserSet(rows, user)| + (if b.user == user then 1 else 0)
  {
    assert UserSet(rows[id := b], user) == UserSet(rows, user) + (if b.user == user then {id} else {});
  }

  lemma FilledNext(n: nat) returns (b: Binding)
    ensures Filled(n + 1).rows == Filled(n).rows[Name(n) := b]
    ensures Name(n) !in Filled(n).rows && b.user == Name(n / 5)
  {
    b := NthPaused(n);
    FilledRows(n);
  }

  lemma NoUsers(user: string)
    ensures UserSet(Filled(0).rows, user) == {}
  {
  }

  lemma UserStep(rows: map<string, Binding>, n: nat, b: Binding, m: nat)
    requires Name(n) !in rows && b.user == Name(n / 5) && |UserSet(rows, Name(m))| == Clamp(n - 5 * m, 5)
    ensures |UserSet(rows[Name(n) := b], Name(m))| == Clamp(n + 1 - 5 * m, 5)
  {
    UserOfNew(rows, Name(n), b, Name(m));
    NameIsUnique(n / 5, m);
    FifthOfUser(n, m);
  }

  lemma {:induction false} FilledUsers(n: nat, m: nat)
    ensures |UserSet(Filled(n).rows, Name(m))| == Clamp(n - 5 * m, 5)
  {
    if n == 0 {
      NoUsers(Name(m));
    } else {
      FilledUsers(n - 1, m);
      FilledUsersNext(n - 1, m);
    }
  }

  lemma FilledUsersNext(n: nat, m: nat)
    requires |UserSet(Filled(n).rows, Name(m))| == Clamp(n - 5 * m, 5)
    ensures |UserSet(Filled(n + 1).rows, Name(m))| == Clamp(n + 1 - 5 * m, 5)
  {
    var b := FilledNext(n);
    UserStep(Filled(n).rows, n, b, m);
  }

  lemma FifthOfUser(n: nat, m: nat)
    ensures Clamp(n + 1 - 5 * m, 5) == Clamp(n - 5 * m, 5) + (if n / 5 == m then 1 else 0)
  {
  }

  lemma NameIsUnique(a: nat, b: nat)
    ensures Name(a) == Name(b) <==> a == b
  {
    assert a != b ==> |Name(a)| != |Name(b)|;
  }

  lemma {:induction false} FilledDays(n: nat, day: nat)
    ensures CreatedOn(Filled(n), day) == Clamp(n - 50 * day, 50)
  {
    if n > 0 { FilledDays(n - 1, day); }
  }

  lemma RoomForNth(n: nat)
    requires n < PUSH_TOTAL_MAX
    ensures |UserSet(Filled(n).rows, Nth(n).user)| < PUSH_USER_MAX && CreatedOn(Filled(n), Nth(n).day) < PUSH_NEW_DAY
    ensures |TotalSet(Filled(n).rows, Nth(n).now)| < PUSH_TOTAL_MAX
    ensures |PendingSet(Filled(n).rows, Nth(n).now)| < PUSH_PENDING_MAX
  {
    FilledCounts(n, n * GAP_MS);
    FilledUsers(n, n / 5);
    FilledDays(n, n / 50);
  }

  lemma CanCreateNth(n: nat)
    requires n < PUSH_TOTAL_MAX
    ensures CanCreate(Filled(n), Nth(n)) && !Collides(Filled(n), Nth(n))
  {
    RoomForNth(n);
    FilledRows(n);
    FilledCounts(n, n * GAP_MS);
    assert Others(Filled(n), Nth(n)) == Filled(n).rows;
  }

  predicate Before(steps: seq<Timed>, now: int) { forall i :: 0 <= i < |steps| ==> steps[i].at <= now }

  lemma Extend(h: seq<Store>, steps: seq<Timed>, s: Step, at: int)
    requires ValidRun(h, steps) && Before(steps, at)
    ensures ValidRun(h + [Apply(h[|h| - 1], s, at)], steps + [Timed(s, at)])
    ensures Before(steps + [Timed(s, at)], at)
  {
    var h', steps' := h + [Apply(h[|h| - 1], s, at)], steps + [Timed(s, at)];
    forall i | 0 <= i < |steps'| ensures h'[i+1] == Apply(h'[i], steps'[i].step, steps'[i].at) {
      if i < |steps| { assert h'[i+1] == h[i+1] && h'[i] == h[i]; }
    }
  }

  /** A run that ends in a given store at a given time. */
  ghost predicate Reaches(t: Store, now: int) {
    exists h, steps :: ValidRun(h, steps) && Before(steps, now) && h[|h| - 1] == t
  }

  lemma ReachesNext(t: Store, earlier: int, s: Step, now: int)
    requires Reaches(t, earlier) && earlier <= now
    ensures Reaches(Apply(t, s, now), now)
  {
    var h, steps :| ValidRun(h, steps) && Before(steps, earlier) && h[|h| - 1] == t;
    Extend(h, steps, s, now);
    var h' := h + [Apply(t, s, now)];
    assert h'[|h'| - 1] == Apply(t, s, now);
  }

  function CreateNth(n: nat): Step { Create(Nth(n)) }

  function PauseNth(n: nat): Step { Act(Pause(Name(n), Name(n / 5), true)) }

  lemma OneMore(n: nat)
    requires n < PUSH_TOTAL_MAX
    ensures Apply(Apply(Filled(n), CreateNth(n), n * GAP_MS), PauseNth(n), n * GAP_MS) == Filled(n + 1)
  {
    CanCreateNth(n);
    var t := Apply(Filled(n), CreateNth(n), n * GAP_MS);
    assert t.rows[Name(n)] == NewBinding(Nth(n));
  }

  lemma {:induction false} Filling(n: nat)
    requires n <= PUSH_TOTAL_MAX
    ensures Reaches(Filled(n), n * GAP_MS)
  {
    if n == 0 {
      assert ValidRun([Filled(0)], []) && Before([], 0);
    } else {
      Filling(n - 1);
      FillOne(n - 1);
    }
  }

  lemma FillOne(n: nat)
    requires n < PUSH_TOTAL_MAX && Reaches(Filled(n), n * GAP_MS)
    ensures Reaches(Filled(n + 1), (n + 1) * GAP_MS)
  {
    var at := n * GAP_MS;
    OneMore(n);
    ReachesNext(Filled(n), at, CreateNth(n), at);
    ReachesNext(Apply(Filled(n), CreateNth(n), at), at, PauseNth(n), at);
    ReachesLater(Filled(n + 1), at, (n + 1) * GAP_MS);
  }

  lemma ReachesLater(t: Store, earlier: int, now: int)
    requires Reaches(t, earlier) && earlier <= now
    ensures Reaches(t, now)
  {
    var h, steps :| ValidRun(h, steps) && Before(steps, earlier) && h[|h| - 1] == t;
    assert Before(steps, now);
  }

  // The last binding that fits is left to expire, one more is registered in its place, and then it is paused.

  const LAST: nat := PUSH_TOTAL_MAX - 1
  const END_MS: int := (LAST + 1) * GAP_MS

  function Waiting(): Store { Apply(Filled(LAST), CreateNth(LAST), LAST * GAP_MS) }

  function Full(): Store { Apply(Waiting(), CreateNth(LAST + 1), END_MS) }

  function Over(): Store { Apply(Full(), PauseNth(LAST), END_MS) }

  lemma WaitingRows()
    ensures Waiting().rows == Filled(LAST).rows[Name(LAST) := NewBinding(Nth(LAST))]
    ensures CreatedOn(Waiting(), (LAST + 1) / 50) == CreatedOn(Filled(LAST), (LAST + 1) / 50)
    ensures !LivePending(Waiting().rows[Name(LAST)], END_MS) && Name(LAST) !in Filled(LAST).rows
  {
    CanCreateNth(LAST);
    FilledRows(LAST);
  }

  lemma WaitingCounts()
    ensures Total(Waiting(), END_MS) == LAST && PendingSet(Waiting().rows, END_MS) == {}
    ensures |UserSet(Waiting().rows, Name((LAST + 1) / 5))| == 0
    ensures CreatedOn(Waiting(), (LAST + 1) / 50) == 0
    ensures Name(LAST + 1) !in Waiting().rows && !EndpointTaken(Waiting().rows, Name(LAST + 1))
  {
    WaitingRows();
    FilledCounts(LAST, END_MS);
    NewUncounted(Filled(LAST).rows, Name(LAST), NewBinding(Nth(LAST)), END_MS);
    FilledUsers(LAST, (LAST + 1) / 5);
    UserOfNew(Filled(LAST).rows, Name(LAST), NewBinding(Nth(LAST)), Name((LAST + 1) / 5));
    NameIsUnique(LAST / 5, (LAST + 1) / 5);
    FilledDays(LAST, (LAST + 1) / 50);
    FilledShape(LAST);
    FilledRows(LAST);
    NameIsUnique(LAST, LAST + 1);
  }

  lemma NewUncounted(rows: map<string, Binding>, id: string, b: Binding, now: int)
    requires id !in rows && !Counted(b, now)
    ensures TotalSet(rows[id := b], now) == TotalSet(rows, now)
        && PendingSet(rows[id := b], now) == PendingSet(rows, now)
  {
  }

  lemma FullIsFull()
    ensures Total(Full(), END_MS) == PUSH_TOTAL_MAX
    ensures Name(LAST) in Full().rows && Full().rows[Name(LAST)] == NewBinding(Nth(LAST))
  {
    WaitingRows();
    WaitingCounts();
    var r := Nth(LAST + 1);
    assert CanCreate(Waiting(), r) && !Collides(Waiting(), r);
    NewRowTotal(Waiting().rows, r.id, NewBinding(r), END_MS);
    assert Full().rows == Waiting().rows[r.id := NewBinding(r)];
    assert |Name(LAST)| != |Name(LAST + 1)|;
  }

  /** Runs that pass the total cap exist: this one ends with one binding more than the cap allows. */
  lemma TotalCapIsPassed()
    ensures exists h, steps ::
              ValidRun(h, steps) && Before(steps, END_MS) && Total(h[|h| - 1], END_MS) == PUSH_TOTAL_MAX + 1
  {
    Filling(LAST);
    ReachesNext(Filled(LAST), LAST * GAP_MS, CreateNth(LAST), LAST * GAP_MS);
    ReachesNext(Waiting(), LAST * GAP_MS, CreateNth(LAST + 1), END_MS);
    ReachesNext(Full(), END_MS, PauseNth(LAST), END_MS);
    FullIsFull();
    PauseRaisesTotalIff(Full(), Name(LAST), Name(LAST / 5), END_MS);
    var h, steps :| ValidRun(h, steps) && Before(steps, END_MS) && h[|h| - 1] == Over();
  }
}
