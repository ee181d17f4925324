/** Push bindings: registration, activation by receipt, pausing, resuming and cleanup, each one guarded
    statement or one conditional commit on caps that several requests race for. */
module PushBindings {
  import opened Wrappers
  import Cas

  const PUSH_USER_MAX: nat := 5
  const PUSH_ACTIVE_MAX: nat := 500
  const PUSH_PENDING_MAX: nat := 50
  const PUSH_TOTAL_MAX: nat := 550
  const PUSH_NEW_DAY: nat := 50
  const PUSH_ACTIVATION_ATTEMPTS: nat := 3
  const ACTIVATION_TTL_MS: int := 600_000
  const COOLDOWN_MS: int := 60_000
  const DAY_MS: int := 86_400_000
  const LEASE_MS: int := 180 * 86_400_000
  const GRACE_MS: int := 30 * 86_400_000

  datatype State = Pending | Active | Paused | Gone

  datatype Binding = Binding(
    user: string, endpoint: string, receipt: string, state: State, deadline: Option<int>, attempts: nat,
    sentAt: Option<int>, challenges: set<string>, lease: Option<int>, lastTest: Option<int>,
    lastProcessed: Option<int>, goneAt: Option<int>, updatedAt: int, version: nat)

  /** `created` counts the bindings registered on each UTC day. */
  datatype Store = Store(rows: map<string, Binding>, created: map<int, nat>)

  // ---------------------------------------------------------------- the counts the guards use

  predicate LivePending(b: Binding, now: int) { b.state == Pending && b.deadline.Some? && b.deadline.value > now }

  predicate Counted(b: Binding, now: int) { b.state == Active || b.state == Paused || LivePending(b, now) }

  function ActiveSet(rows: map<string, Binding>): set<string> {
    set id | id in rows && rows[id].state == Active
  }

  function PendingSet(rows: map<string, Binding>, now: int): set<string> {
    set id | id in rows && LivePending(rows[id], now)
  }

  function TotalSet(rows: map<string, Binding>, now: int): set<string> {
    set id | id in rows && Counted(rows[id], now)
  }

  function UserSet(rows: map<string, Binding>, user: string): set<string> {
    set id | id in rows && rows[id].user == user
  }

  function CreatedOn(t: Store, day: int): nat { if day in t.created then t.created[day] else 0 }

  function Coalesce(a: Option<int>, b: int): int { if a.Some? then a.value else b }

  function Max(a: int, b: int): int { if a < b then b else a }

  // ---------------------------------------------------------------- actions on one row

  /** Each action is one guarded statement.  `allowed` stands for the session, the subscription, the
      controls and the daily counters its guard also asks for, `userActive` for the account's status. */
  datatype Action =
    | Activate(id: string, receipt: string, challenge: string, userActive: bool)
    | Send(id: string, user: string, challenge: string, allowed: bool)
    | Resume(id: string, user: string, version: nat, allowed: bool)
    | Pause(id: string, user: string, allowed: bool)
    | Remove(id: string, user: string, allowed: bool)
    | Renew(id: string, user: string, version: nat, allowed: bool)
    | Rotate(id: string, user: string, version: nat, newReceipt: string, allowed: bool)
    | TestNotice(id: string, user: string, version: nat, allowed: bool)
    | Processed(id: string, receipt: string, seen: Option<int>)

  predicate CanActivate(t: Store, id: string, receipt: string, challenge: string, now: int, userActive: bool) {
    && id in t.rows && t.rows[id].receipt == receipt && LivePending(t.rows[id], now)
    && challenge in t.rows[id].challenges
    && |ActiveSet(t.rows)| < PUSH_ACTIVE_MAX
    && userActive
  }

  predicate CooledDown(last: Option<int>, now: int) { last.Some? ==> last.value <= now - COOLDOWN_MS }

  predicate CanSend(t: Store, id: string, user: string, now: int, allowed: bool) {
    && id in t.rows && t.rows[id].user == user && LivePending(t.rows[id], now)
    && t.rows[id].attempts < PUSH_ACTIVATION_ATTEMPTS
    && CooledDown(t.rows[id].sentAt, now)
    && allowed
  }

  predicate CanResume(t: Store, id: string, user: string, version: nat, now: int, allowed: bool) {
    && id in t.rows && t.rows[id].user == user && t.rows[id].version == version && t.rows[id].state == Paused
    && |PendingSet(t.rows, now)| < PUSH_PENDING_MAX
    && allowed
  }

  predicate Stoppable(b: Binding) { b.state == Pending || b.state == Active }

  predicate OwnRow(t: Store, id: string, user: string) { id in t.rows && t.rows[id].user == user }

  /** A confirmation is written at most once a day. */
  predicate WriteDue(last: Option<int>, now: int) { last.Some? ==> now - last.value >= DAY_MS }

  predicate Hits(t: Store, a: Action, now: int) {
    match a
    case Activate(id, receipt, challenge, userActive) => CanActivate(t, id, receipt, challenge, now, userActive)
    case Send(id, user, _, allowed) => CanSend(t, id, user, now, allowed)
    case Resume(id, user, version, allowed) => CanResume(t, id, user, version, now, allowed)
    case Pause(id, user, allowed) => OwnRow(t, id, user) && Stoppable(t.rows[id]) && allowed
    case Remove(id, user, allowed) => OwnRow(t, id, user) && allowed
    case Renew(id, user, version, allowed) =>
      OwnRow(t, id, user) && t.rows[id].version == version && t.rows[id].state == Active && allowed
    case Rotate(id, user, version, _, allowed) =>
      OwnRow(t, id, user) && t.rows[id].version == version && t.rows[id].state != Gone && allowed
    case TestNotice(id, user, version, allowed) =>
      && OwnRow(t, id, user) && t.rows[id].version == version && t.rows[id].state == Active
      && CooledDown(t.rows[id].lastTest, now) && allowed
    case Processed(id, receipt, seen) =>
      && id in t.rows && t.rows[id].receipt == receipt && t.rows[id].state == Active && WriteDue(seen, now)
      && (t.rows[id].lastProcessed.None? || t.rows[id].lastProcessed == seen)
  }

  function Activated(b: Binding, now: int): Binding {
    b.(state := Active, lease := Some(now + LEASE_MS), lastProcessed := Some(now), challenges := {}, updatedAt := now,
       version := b.version + 1)
  }

  function Sent(b: Binding, challenge: string, now: int): Binding {
    b.(attempts := b.attempts + 1, sentAt := Some(now), challenges := b.challenges + {challenge}, updatedAt := now,
       version := b.version + 1)
  }

  /** Resuming starts a new round: new deadline, no attempts, no challenge of an earlier round. */
  function Resumed(b: Binding, now: int): Binding {
    b.(state := Pending, deadline := Some(now + ACTIVATION_TTL_MS), attempts := 0, sentAt := None, challenges := {},
       updatedAt := now, version := b.version + 1)
  }

  function Stopped(b: Binding, now: int): Binding {
    if Stoppable(b) then b.(state := Paused, challenges := {}, updatedAt := now, version := b.version + 1) else b
  }

  /** Account actions and confirmed receipts only ever lengthen the lease. */
  function Longer(lease: Option<int>, now: int): Option<int> { Some(Max(Coalesce(lease, 0), now + LEASE_MS)) }

  function RowAfter(b: Binding, a: Action, now: int): Binding {
    match a
    case Activate(_, _, _, _) => Activated(b, now)
    case Send(_, _, challenge, _) => Sent(b, challenge, now)
    case Resume(_, _, _, _) => Resumed(b, now)
    case Pause(_, _, _) => Stopped(b, now)
    case Remove(_, _, _) => b
    case Renew(_, _, _, _) => b.(lease := Some(now + LEASE_MS), updatedAt := now, version := b.version + 1)
    case Rotate(_, _, _, newReceipt, _) => b.(receipt := newReceipt, updatedAt := now, version := b.version + 1)
    case TestNotice(_, _, _, _) =>
      b.(lastTest := Some(now), lease := Longer(b.lease, now), updatedAt := now, version := b.version + 1)
    case Processed(_, _, _) => b.(lastProcessed := Some(now), lease := Longer(b.lease, now), updatedAt := now)
  }

  function Without(rows: map<string, Binding>, ids: set<string>): map<string, Binding> {
    map id | id in rows && id !in ids :: rows[id]
  }

  /** The store after an action; a guard that does not hit leaves it alone. */
  function Acted(t: Store, a: Action, now: int): Store {
    if !Hits(t, a, now) then t
    else if a.Remove? then t.(rows := Without(t.rows, {a.id}))
    else t.(rows := t.rows[a.id := RowAfter(t.rows[a.id], a, now)])
  }

  function ActionPlan(a: Action, now: int): Cas.Plan<Store> {
    Cas.Plan([], if a.Remove? then Cas.DeleteVerb else Cas.UpdateVerb,
             (t: Store) => if Hits(t, a, now) then Cas.Rows(Acted(t, a, now), 1, 0) else Cas.NoRows, [])
  }

  method Perform(db: Cas.Database<Store>, a: Action, now: int) returns (done: bool)
    modifies db
    ensures done <==> Hits(old(db.state), a, now)
    ensures db.state == Acted(old(db.state), a, now)
  {
    var outcome := db.ConditionalCommit(ActionPlan(a, now));
    return outcome == Cas.Committed;
  }

  datatype ReceiptResult = NowActive | AlreadyActive | CapacityReached | ReceiptNotFound

  /** Each answer says exactly what the stored row was; only a first valid receipt changes anything. */
  method ActivateReceipt(
      db: Cas.Database<Store>, id: string, receipt: string, challenge: string, now: int, userActive: bool)
    returns (r: ReceiptResult)
    modifies db
    ensures r == NowActive <==>
              var t := old(db.state);
              && id in t.rows && t.rows[id].receipt == receipt && t.rows[id].state == Pending
              && t.rows[id].deadline.Some? && now < t.rows[id].deadline.value
              && challenge in t.rows[id].challenges && |ActiveSet(t.rows)| < 500 && userActive
    ensures var t := old(db.state);
            db.state ==
              if r == NowActive
              then t.(rows := t.rows[id := t.rows[id].(
                     state := Active, lease := Some(now + 180 * 86_400_000), lastProcessed := Some(now),
                     challenges := {}, updatedAt := now, version := t.rows[id].version + 1)])
              else t
    ensures var t := old(db.state);
            var known := id in t.rows && t.rows[id].receipt == receipt;
            && (r == AlreadyActive <==> known && t.rows[id].state == Active)
            && (r == CapacityReached <==>
                known && LivePending(t.rows[id], now) && challenge in t.rows[id].challenges
                && |ActiveSet(t.rows)| >= PUSH_ACTIVE_MAX)
  {
    var done := Perform(db, Activate(id, receipt, challenge, userActive), now);
    if done { return NowActive; }
    if id !in db.state.rows || db.state.rows[id].receipt != receipt { return ReceiptNotFound; }
    var row := db.state.rows[id];
    if row.state == Active { return AlreadyActive; }
    if row.state == Pending && row.deadline.Some? && row.deadline.value > now && challenge in row.challenges {
      if |ActiveSet(db.state.rows)| >= PUSH_ACTIVE_MAX { return CapacityReached; }
    }
    return ReceiptNotFound;
  }

  datatype PauseResult = PauseDone | PauseRefused | PauseNotFound

  /** Pausing is idempotent: a binding that no longer sends is left alone. */
  method PausePushBinding(db: Cas.Database<Store>, id: string, user: string, now: int, allowed: bool)
    returns (r: PauseResult)
    modifies db
    ensures var t := old(db.state);
            var own := id in t.rows && t.rows[id].user == user;
            && (r == PauseNotFound <==> !own)
            && (r == PauseRefused <==> own && t.rows[id].state in {Pending, Active} && !allowed)
            && db.state ==
                 if r == PauseDone && t.rows[id].state in {Pending, Active}
                 then t.(rows := t.rows[id := t.rows[id].(
                        state := Paused, challenges := {}, updatedAt := now, version := t.rows[id].version + 1)])
                 else t
    ensures r == PauseDone ==> db.state.rows[id].state in {Paused, Gone}
  {
    var t := db.state;
    if id !in t.rows || t.rows[id].user != user { return PauseNotFound; }
    if t.rows[id].state == Pending || t.rows[id].state == Active {
      var done := Perform(db, Pause(id, user, allowed), now);
      return if done then PauseDone else PauseRefused;
    }
    assert t.rows[id := t.rows[id]] == t.rows;
    return PauseDone;
  }

  /** Resuming a paused binding: a new round, inside the pending cap, against the version the page showed. */
  method ResumePushBinding(db: Cas.Database<Store>, id: string, user: string, version: nat, now: int, allowed: bool)
    returns (done: bool)
    modifies db
    ensures done <==>
              var t := old(db.state);
              && id in t.rows && t.rows[id].user == user && t.rows[id].version == version
              && t.rows[id].state == Paused && |PendingSet(t.rows, now)| < 50 && allowed
    ensures var t := old(db.state);
            db.state ==
              if done
              then t.(rows := t.rows[id := t.rows[id].(
                     state := Pending, deadline := Some(now + 600_000), attempts := 0, sentAt := None,
                     challenges := {}, updatedAt := now, version := t.rows[id].version + 1)])
              else t
  {
    done := Perform(db, Resume(id, user, version, allowed), now);
  }

  /** Reserving one activation notice and recording its challenge. */
  method SendActivation(db: Cas.Database<Store>, id: string, user: string, challenge: string, now: int, allowed: bool)
    returns (done: bool)
    modifies db
    ensures done <==>
              var t := old(db.state);
              && id in t.rows && t.rows[id].user == user && t.rows[id].state == Pending
              && t.rows[id].deadline.Some? && now < t.rows[id].deadline.value && t.rows[id].attempts < 3
              && (t.rows[id].sentAt.Some? ==> now >= t.rows[id].sentAt.value + 60_000) && allowed
    ensures var t := old(db.state);
            db.state ==
              if done
              then t.(rows := t.rows[id := t.rows[id].(
                     attempts := t.rows[id].attempts + 1, sentAt := Some(now),
                     challenges := t.rows[id].challenges + {challenge}, updatedAt := now,
                     version := t.rows[id].version + 1)])
              else t
  {
    if id !in db.state.rows || db.state.rows[id].user != user { return false; }
    if db.state.rows[id].state != Pending || db.state.rows[id].deadline.None? { return false; }
    done := Perform(db, Send(id, user, challenge, allowed), now);
  }

  /** Deleting is idempotent and only ever removes the caller's own row. */
  method DeletePushBinding(db: Cas.Database<Store>, id: string, user: string, now: int, allowed: bool)
    returns (done: bool)
    modifies db
    ensures done <==> id in old(db.state).rows && old(db.state).rows[id].user == user && allowed
    ensures db.state == if done then old(db.state).(rows := Without(old(db.state).rows, {id})) else old(db.state)
  {
    done := Perform(db, Remove(id, user, allowed), now);
  }

  /** Handing this browser a new receipt token changes neither the binding's state nor its rounds. */
  method ReRegister(
      db: Cas.Database<Store>, id: string, user: string, version: nat, newReceipt: string, now: int, allowed: bool)
    returns (done: bool)
    modifies db
    ensures done <==>
              var t := old(db.state);
              && id in t.rows && t.rows[id].user == user && t.rows[id].version == version
              && t.rows[id].state != Gone && allowed
    ensures var t := old(db.state);
            if done
            then db.state == t.(rows := t.rows[id :=
                   t.rows[id].(receipt := newReceipt, updatedAt := now, version := t.rows[id].version + 1)])
            else db.state == t
  {
    done := Perform(db, Rotate(id, user, version, newReceipt, allowed), now);
  }

  /** A test and a confirmed receipt renew the lease of an active binding, and never shorten it. */
  method RenewLease(db: Cas.Database<Store>, a: Action, now: int) returns (done: bool)
    requires a.TestNotice? || a.Processed?
    modifies db
    ensures done <==>
              var t := old(db.state);
              && a.id in t.rows && t.rows[a.id].state == Active
              && (a.TestNotice? ==>
                    && t.rows[a.id].user == a.user && t.rows[a.id].version == a.version && a.allowed
                    && (t.rows[a.id].lastTest.Some? ==> now >= t.rows[a.id].lastTest.value + 60_000))
              && (a.Processed? ==>
                    && t.rows[a.id].receipt == a.receipt
                    && (a.seen.Some? ==> now >= a.seen.value + 86_400_000)
                    && (t.rows[a.id].lastProcessed.None? || t.rows[a.id].lastProcessed == a.seen))
    ensures !done ==> db.state == old(db.state)
    ensures done ==>
              && db.state == old(db.state).(rows := db.state.rows)
              && db.state.rows.Keys == old(db.state).rows.Keys
              && (forall id :: id in db.state.rows && id != a.id ==> db.state.rows[id] == old(db.state).rows[id])
              && db.state.rows[a.id].state == Active
              && db.state.rows[a.id].lease ==
                   Some(Max(Coalesce(old(db.state).rows[a.id].lease, 0), now + 180 * 86_400_000))
              && (a.TestNotice? ==> db.state.rows[a.id].lastTest == Some(now))
              && (a.Processed? ==> db.state.rows[a.id].lastProcessed == Some(now))
  {
    done := Perform(db, a, now);
  }

  // ---------------------------------------------------------------- several rows at once

  /** The account trigger and the lease sweep pause several rows with one statement. */
  function AllStopped(rows: map<string, Binding>, ids: set<string>, now: int): map<string, Binding> {
    map id | id in rows :: if id in ids then Stopped(rows[id], now) else rows[id]
  }

  function LeaseOver(rows: map<string, Binding>, ids: set<string>, now: int): set<string> {
    set id | id in ids && id in rows && rows[id].state == Active && rows[id].lease.Some? && rows[id].lease.value <= now
  }

  predicate Cleanable(b: Binding, now: int) {
    match b.state
    case Pending => Coalesce(b.deadline, now) <= now
    case Paused => Coalesce(b.lease, Coalesce(b.deadline, b.updatedAt)) <= now - GRACE_MS
    case Gone => Coalesce(b.goneAt, b.updatedAt) <= now - GRACE_MS
    case Active => false
  }

  function CleanSet(rows: map<string, Binding>, ids: set<string>, now: int): set<string> {
    set id | id in ids && id in rows && Cleanable(rows[id], now)
  }

  function WithGone(rows: map<string, Binding>, id: string, now: int): map<string, Binding> {
    if id in rows && rows[id].state != Gone
    then rows[id := rows[id].(state := Gone, goneAt := Some(now), challenges := {}, updatedAt := now,
                              version := rows[id].version + 1)]
    else rows
  }

  /** The retention pass: leases that ran out are paused first, then what is stale is deleted; what is active
      within its lease, or pending before its deadline, is kept. */
  method SweepBindings(db: Cas.Database<Store>, expired: set<string>, stale: set<string>, now: int)
    modifies db
    ensures var t := old(db.state);
            var paused := AllStopped(t.rows, LeaseOver(t.rows, expired, now), now);
            db.state == t.(rows := Without(paused, CleanSet(paused, stale, now)))
    ensures forall id :: id in db.state.rows && id in expired ==>
              var b := db.state.rows[id]; !(b.state == Active && b.lease.Some? && b.lease.value <= now)
    ensures forall id :: id in old(db.state).rows && id in stale ==>
              var b := old(db.state).rows[id];
              var lapsed := id in expired && b.state == Active && b.lease.Some? && b.lease.value <= now;
              id !in db.state.rows <==>
                || (b.state == Pending && Coalesce(b.deadline, now) <= now)
                || ((b.state == Paused || lapsed)
                    && Coalesce(b.lease, Coalesce(b.deadline, if lapsed then now else b.updatedAt))
                         <= now - 30 * 86_400_000)
                || (b.state == Gone && Coalesce(b.goneAt, b.updatedAt) <= now - 30 * 86_400_000)
    ensures forall id :: id in old(db.state).rows ==>
              var b := old(db.state).rows[id];
              (b.state == Active && !(b.lease.Some? && b.lease.value <= now)) || LivePending(b, now) ==>
                id in db.state.rows && db.state.rows[id] == b
  {
    db.state := db.state.(rows := AllStopped(db.state.rows, LeaseOver(db.state.rows, expired, now), now));
    db.state := db.state.(rows := Without(db.state.rows, CleanSet(db.state.rows, stale, now)));
  }

  // ---------------------------------------------------------------- registration

  /** A registration: `replacing` is the stale row of the same browser, `allowed` the session, the
      controls, the subscription and the other daily counters. */
  datatype Registration = Registration(
    id: string, user: string, endpoint: string, receipt: string, replacing: Option<string>, now: int, day: int,
    allowed: bool)

  function Others(t: Store, r: Registration): map<string, Binding> {
    if r.replacing.Some? then Without(t.rows, {r.replacing.value}) else t.rows
  }

  predicate EndpointTaken(rows: map<string, Binding>, endpoint: string) {
    exists id :: id in rows && rows[id].endpoint == endpoint
  }

  /** The row to replace is the caller's own and of the same browser; without one the browser is new. */
  predicate RightBrowser(t: Store, r: Registration) {
    if r.replacing.Some?
    then OwnRow(t, r.replacing.value, r.user) && t.rows[r.replacing.value].endpoint == r.endpoint
    else !EndpointTaken(t.rows, r.endpoint)
  }

  predicate CanCreate(t: Store, r: Registration) {
    && r.allowed && RightBrowser(t, r)
    && |UserSet(Others(t, r), r.user)| < PUSH_USER_MAX
    && |TotalSet(Others(t, r), r.now)| < PUSH_TOTAL_MAX
    && |PendingSet(Others(t, r), r.now)| < PUSH_PENDING_MAX
    && CreatedOn(t, r.day) < PUSH_NEW_DAY
  }

  function NewBinding(r: Registration): Binding {
    Binding(r.user, r.endpoint, r.receipt, Pending, Some(r.now + ACTIVATION_TTL_MS), 0, None, {}, None, None, None,
            None, r.now, 0)
  }

  function EnsureCreated(day: int): Store -> Cas.Exec<Store> {
    (t: Store) => if day in t.created then Cas.NoRows else Cas.Rows(t.(created := t.created[day := 0]), 1, 0)
  }

  function CreateGuard(r: Registration): Store -> Cas.Exec<Store> {
    (t: Store) => if CanCreate(t, r) then Cas.Rows(t, 1, 0) else Cas.NoRows
  }

  function DeleteReplaced(id: string, user: string): Store -> Cas.Exec<Store> {
    (t: Store) => if OwnRow(t, id, user) then Cas.Rows(t.(rows := Without(t.rows, {id})), 1, 0) else Cas.NoRows
  }

  /** The primary key and the unique endpoint both fail the batch. */
  function InsertBinding(id: string, b: Binding): Store -> Cas.Exec<Store> {
    (t: Store) =>
      if id in t.rows || EndpointTaken(t.rows, b.endpoint) then Cas.SqlError
      else Cas.Rows(t.(rows := t.rows[id := b]), 1, 0)
  }

  function CountCreated(day: int): Store -> Cas.Exec<Store> {
    (t: Store) =>
      if day in t.created then Cas.Rows(t.(created := t.created[day := t.created[day] + 1]), 1, 0) else Cas.NoRows
  }

  function InsertEffects(r: Registration): (es: seq<Cas.Effect<Store>>)
    ensures |es| == 2
  {
    [Cas.Insert(1, InsertBinding(r.id, NewBinding(r))), Cas.Update(3, CountCreated(r.day), false)]
  }

  function CreateEffects(r: Registration): seq<Cas.Effect<Store>> {
    if r.replacing.Some?
    then [Cas.Delete(DeleteReplaced(r.replacing.value, r.user))] + InsertEffects(r)
    else InsertEffects(r)
  }

  function CreatePlan(r: Registration): Cas.Plan<Store> {
    Cas.Plan([EnsureCreated(r.day)], Cas.UpdateVerb, CreateGuard(r), CreateEffects(r))
  }

  predicate Collides(t: Store, r: Registration) {
    r.id in Others(t, r) || EndpointTaken(Others(t, r), r.endpoint)
  }

  function CountedDay(t: Store, day: int): Store { t.(created := t.created[day := CreatedOn(t, day)]) }

  function Registered(t: Store, r: Registration): Store {
    Store(Others(t, r)[r.id := NewBinding(r)], t.created[r.day := CreatedOn(t, r.day) + 1])
  }

  /** What a registration does: replacing the stale row, adding the new one and counting it are one step. */
  function Creating(t: Store, r: Registration): (Cas.Outcome, Store) {
    if !CanCreate(t, r) then (Cas.ConditionMissed, CountedDay(t, r.day))
    else if Collides(t, r) then (Cas.Rejected, t)
    else (Cas.Committed, Registered(t, r))
  }

  method CreatePushBinding(db: Cas.Database<Store>, r: Registration) returns (outcome: Cas.Outcome)
    modifies db
    ensures var others := Others(old(db.state), r);
            && (outcome == Cas.ConditionMissed <==>
                  !(r.allowed && RightBrowser(old(db.state), r) && |UserSet(others, r.user)| < 5
                    && |TotalSet(others, r.now)| < 550 && |PendingSet(others, r.now)| < 50
                    && CreatedOn(old(db.state), r.day) < 50))
            && (outcome == Cas.Rejected ==> r.id in others || EndpointTaken(others, r.endpoint))
            && (outcome == Cas.Committed ==> r.id !in others && !EndpointTaken(others, r.endpoint))
            && outcome in {Cas.ConditionMissed, Cas.Rejected, Cas.Committed}
    ensures outcome == Cas.Committed ==>
              && db.state.created == old(db.state).created[r.day := CreatedOn(old(db.state), r.day) + 1]
              && db.state.rows == Others(old(db.state), r)[r.id :=
                   Binding(r.user, r.endpoint, r.receipt, Pending, Some(r.now + 600_000), 0, None, {}, None, None, None,
                           None, r.now, 0)]
    ensures outcome != Cas.Committed ==>
              db.state == if outcome == Cas.Rejected then old(db.state) else CountedDay(old(db.state), r.day)
  {
    CreateDecides(db.state, r);
    outcome := db.ConditionalCommit(CreatePlan(r));
  }

  lemma InsertDecides(t: Store, r: Registration)
    requires r.day in t.created
    ensures Cas.RunChain(InsertEffects(r), t, 1) ==
              if r.id in t.rows || EndpointTaken(t.rows, r.endpoint) then Cas.Aborted
              else Cas.Done(Store(t.rows[r.id := NewBinding(r)], t.created[r.day := t.created[r.day] + 1]), [1, 1])
  {
    var effects := InsertEffects(r);
    var e := effects[0].Chained(t, 1);
    if e.Rows? {
      var tail := effects[1..];
      var f := tail[0].Chained(e.state, 1);
      assert tail[1..] == [];
      assert Cas.RunChain(tail, e.state, 1) == Cas.Done(f.state, [1]);
    }
  }

  /** The effects after the guard: the stale row goes, then the new one and its count arrive. */
  lemma EffectsDecide(t: Store, r: Registration)
    requires RightBrowser(t, r) && r.day in t.created
    ensures Cas.RunChain(CreateEffects(r), t, 1) ==
              if Collides(t, r) then Cas.Aborted
              else Cas.Done(Registered(t, r), if r.replacing.Some? then [1, 1, 1] else [1, 1])
  {
    var after := t.(rows := Others(t, r));
    InsertDecides(after, r);
    assert Store(after.rows[r.id := NewBinding(r)], after.created[r.day := after.created[r.day] + 1]) ==
           Registered(t, r);
    if r.replacing.Some? { ReplacedFirst(t, r, after); } else { assert after == t; }
  }

  lemma ReplacedFirst(t: Store, r: Registration, after: Store)
    requires RightBrowser(t, r) && r.replacing.Some? && after == t.(rows := Others(t, r))
    ensures var chain := Cas.RunChain(InsertEffects(r), after, 1);
            Cas.RunChain(CreateEffects(r), t, 1) ==
              if chain.Aborted? then Cas.Aborted else Cas.Done(chain.state, [1] + chain.metas)
  {
    var effects := CreateEffects(r);
    assert effects[0].Chained(t, 1) == Cas.Rows(after, 1, 0);
    assert effects[1..] == InsertEffects(r);
  }

  lemma CreateDecides(t: Store, r: Registration)
    ensures Cas.Commit(CreatePlan(r), t) == Creating(t, r)
  {
    var counted := CountedDay(t, r.day);
    CountingPreamble(t, r);
    SameGuard(t, counted, r);
    if CanCreate(t, r) {
      CreateHits(t, counted, r);
      assert counted.created[r.day := CreatedOn(t, r.day) + 1] == t.created[r.day := CreatedOn(t, r.day) + 1];
    } else {
      Cas.GuardMissIsNoOp(CreatePlan(r), t);
    }
  }

  lemma CountingPreamble(t: Store, r: Registration)
    ensures Cas.RunPreamble(CreatePlan(r).preamble, t) == Cas.Done(CountedDay(t, r.day), [])
  {
    assert r.day in t.created ==> CountedDay(t, r.day).created == t.created;
    assert CreatePlan(r).preamble[1..] == [];
  }

  lemma CreateHits(t: Store, counted: Store, r: Registration)
    requires CanCreate(counted, r) && r.day in counted.created
    requires Cas.RunPreamble(CreatePlan(r).preamble, t) == Cas.Done(counted, [])
    ensures Cas.Commit(CreatePlan(r), t) ==
              if Collides(counted, r) then (Cas.Rejected, t) else (Cas.Committed, Registered(counted, r))
  {
    assert CreatePlan(r).guard(counted) == Cas.Rows(counted, 1, 0);
    EffectsDecide(counted, r);
    CreateShape(r);
    HitDecides(CreatePlan(r), t, counted);
  }

  lemma CreateShape(r: Registration)
    ensures Cas.WellFormed(CreatePlan(r))
    ensures forall i :: 0 <= i < |CreatePlan(r).effects| ==> CreatePlan(r).effects[i].Expected() == 1
  {
  }

  /** A guard that hits without touching anything itself: the chain decides. */
  lemma HitDecides(plan: Cas.Plan<Store>, t: Store, counted: Store)
    requires Cas.WellFormed(plan) && Cas.RunPreamble(plan.preamble, t) == Cas.Done(counted, [])
    requires plan.guard(counted) == Cas.Rows(counted, 1, 0)
    requires forall i :: 0 <= i < |plan.effects| ==> plan.effects[i].Expected() == 1
    ensures var chain := Cas.RunChain(plan.effects, counted, 1);
            if chain.Aborted? then Cas.Commit(plan, t) == (Cas.Rejected, t)
            else (forall i :: 0 <= i < |chain.metas| ==> chain.metas[i] == 1) ==>
              Cas.Commit(plan, t) == (Cas.Committed, chain.state)
  {
  }

  lemma SameGuard(t: Store, counted: Store, r: Registration)
    requires counted == CountedDay(t, r.day)
    ensures Others(counted, r) == Others(t, r) && CreatedOn(counted, r.day) == CreatedOn(t, r.day)
    ensures CanCreate(counted, r) <==> CanCreate(t, r)
  {
  }
}
