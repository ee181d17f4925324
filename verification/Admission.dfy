/** One registration slot from reservation to account: reserving, releasing, turning it into an account, and
    finishing an account's deletion.  All four are conditional commits on the same counter. */
module Admission {
  import opened Cas

  const REGISTRATIONS_DAY: int := 10

  datatype SlotState = Reserved | Released | Converted

  datatype Reservation = Reservation(kind: string, email: string, slot: SlotState, expiresAt: int)

  /** A deleted account keeps its row under an e-mail key nothing else can have. */
  datatype Account = Account(email: string, deleted: bool)

  datatype Counter = AccountsTotal | RegistrationsOn(day: int)

  datatype Tables = Tables(
    capacity: map<Counter, int>,
    reservations: map<string, Reservation>,
    users: map<string, Account>,
    audits: set<string>)

  /** `attempt` is false when registration is closed: the same commit then runs against a cap of zero.
      `ready` stands for what a guard asks of the challenge, the session and the account's remaining data. */
  datatype Step =
    | Reserve(id: string, kind: string, email: string, expiresAt: int, attempt: bool)
    | Release(id: string, auditId: string)
    | Convert(id: string, user: string, email: string, day: int, now: int, ready: bool)
    | Finalize(user: string, tombstone: string, ready: bool)

  function Open(t: Tables): set<string> {
    set id | id in t.reservations && t.reservations[id].slot == Reserved
  }

  function Living(t: Tables): set<string> {
    set id | id in t.users && !t.users[id].deleted
  }

  predicate EmailOpen(t: Tables, email: string) {
    exists id :: id in t.reservations && t.reservations[id].slot == Reserved && t.reservations[id].email == email
  }

  predicate EmailUsed(t: Tables, email: string) {
    exists id :: id in t.users && t.users[id].email == email
  }

  function Taken(t: Tables, c: Counter): int { if c in t.capacity then t.capacity[c] else 0 }

  // ---------------------------------------------------------------- statements

  function EnsureCounter(c: Counter): Tables -> Exec<Tables> {
    (t: Tables) => if c in t.capacity then NoRows else Rows(t.(capacity := t.capacity[c := 0]), 1, 0)
  }

  function TakeSlot(cap: int): Tables -> Exec<Tables> {
    (t: Tables) =>
      if AccountsTotal in t.capacity && t.capacity[AccountsTotal] < cap
      then Rows(t.(capacity := t.capacity[AccountsTotal := t.capacity[AccountsTotal] + 1]), 1, 0) else NoRows
  }

  /** The primary key and the partial unique index on open e-mail keys both fail the batch. */
  function InsertReservation(id: string, r: Reservation): Tables -> Exec<Tables> {
    (t: Tables) =>
      if id in t.reservations || EmailOpen(t, r.email) then SqlError
      else Rows(t.(reservations := t.reservations[id := r]), 1, 0)
  }

  function MoveReservation(id: string, to: SlotState): Tables -> Exec<Tables> {
    (t: Tables) =>
      if id in t.reservations && t.reservations[id].slot == Reserved
      then Rows(t.(reservations := t.reservations[id := t.reservations[id].(slot := to)]), 1, 0)
      else NoRows
  }

  function GiveBack(): Tables -> Exec<Tables> {
    (t: Tables) =>
      if AccountsTotal in t.capacity
      then Rows(t.(capacity := t.capacity[AccountsTotal := t.capacity[AccountsTotal] - 1]), 1, 0) else NoRows
  }

  /** The deletion's give-back also asks for a positive counter, and may come out empty. */
  function GiveBackIfAny(): Tables -> Exec<Tables> {
    (t: Tables) =>
      if AccountsTotal in t.capacity && t.capacity[AccountsTotal] > 0
      then Rows(t.(capacity := t.capacity[AccountsTotal := t.capacity[AccountsTotal] - 1]), 1, 0) else NoRows
  }

  function InsertAudit(auditId: string): Tables -> Exec<Tables> {
    (t: Tables) => if auditId in t.audits then SqlError else Rows(t.(audits := t.audits + {auditId}), 1, 0)
  }

  predicate CanConvert(t: Tables, s: Step)
    requires s.Convert?
  {
    && s.ready
    && s.id in t.reservations && t.reservations[s.id].slot == Reserved
    && t.reservations[s.id].email == s.email && t.reservations[s.id].expiresAt > s.now
    && !EmailUsed(t, s.email)
    && Taken(t, RegistrationsOn(s.day)) < REGISTRATIONS_DAY
  }

  function TakeChallenge(s: Step): Tables -> Exec<Tables>
    requires s.Convert?
  {
    (t: Tables) => if CanConvert(t, s) then Rows(t, 1, 0) else NoRows
  }

  /** Account ids and e-mail keys are unique. */
  function InsertUser(user: string, email: string): Tables -> Exec<Tables> {
    (t: Tables) =>
      if user in t.users || EmailUsed(t, email) then SqlError
      else Rows(t.(users := t.users[user := Account(email, false)]), 1, 0)
  }

  function CountRegistration(day: int): Tables -> Exec<Tables> {
    (t: Tables) =>
      if RegistrationsOn(day) in t.capacity
      then Rows(t.(capacity := t.capacity[RegistrationsOn(day) := t.capacity[RegistrationsOn(day)] + 1]), 1, 0)
      else NoRows
  }

  function FinishDeletion(user: string, tombstone: string, ready: bool): Tables -> Exec<Tables> {
    (t: Tables) =>
      if !(ready && user in t.users && !t.users[user].deleted) then NoRows
      else if EmailUsed(t, tombstone) then SqlError
      else Rows(t.(users := t.users[user := Account(tombstone, true)]), 1, 0)
  }

  function PlanOf(step: Step, cap: int): Plan<Tables> {
    match step
    case Reserve(id, kind, email, expiresAt, attempt) =>
      Plan([EnsureCounter(AccountsTotal)], UpdateVerb, TakeSlot(if attempt then cap else 0),
           [Insert(1, InsertReservation(id, Reservation(kind, email, Reserved, expiresAt)))])
    case Release(id, auditId) =>
      Plan([], UpdateVerb, MoveReservation(id, Released),
           [Update(2, GiveBack(), false), Insert(1, InsertAudit(auditId))])
    case Convert(id, user, email, day, _, _) =>
      Plan([EnsureCounter(RegistrationsOn(day))], UpdateVerb, TakeChallenge(step),
           [Insert(1, InsertUser(user, email)), Update(3, MoveReservation(id, Converted), false),
            Update(3, CountRegistration(day), false)])
    case Finalize(user, tombstone, ready) =>
      Plan([], UpdateVerb, FinishDeletion(user, tombstone, ready), [Update(3, GiveBackIfAny(), true)])
  }

  // ---------------------------------------------------------------- what a call does

  function Full(t: Tables, step: Step, cap: int): bool
    requires step.Reserve?
  {
    Taken(t, AccountsTotal) >= if step.attempt then cap else 0
  }

  function WithCounter(t: Tables, c: Counter, n: int): Tables { t.(capacity := t.capacity[c := n]) }

  /** A full counter misses, a taken id or an open e-mail rolls the counter back too, and otherwise the
      counter and the reservation move together. */
  function Reserving(t: Tables, step: Step, cap: int): (Outcome, Tables)
    requires step.Reserve?
  {
    if Full(t, step, cap) then (ConditionMissed, WithCounter(t, AccountsTotal, Taken(t, AccountsTotal)))
    else if step.id in t.reservations || EmailOpen(t, step.email) then (Rejected, t)
    else
      (Committed, WithCounter(t, AccountsTotal, Taken(t, AccountsTotal) + 1).(
        reservations := t.reservations[step.id := Reservation(step.kind, step.email, Reserved, step.expiresAt)]))
  }

  lemma ReserveDecides(t: Tables, step: Step, cap: int)
    requires step.Reserve?
    ensures Commit(PlanOf(step, cap), t) == Reserving(t, step, cap)
  {
    var plan := PlanOf(step, cap);
    var counted := WithCounter(t, AccountsTotal, Taken(t, AccountsTotal));
    assert AccountsTotal in t.capacity ==> counted.capacity == t.capacity;
    assert plan.preamble[1..] == [] && plan.effects[1..] == [];
    assert RunPreamble(plan.preamble, t) == Done(counted, []);
    assert EmailOpen(counted, step.email) <==> EmailOpen(t, step.email);
    var g := plan.guard(counted);
    if Full(t, step, cap) {
      GuardMissIsNoOp(plan, t);
    } else {
      assert g.state.capacity == t.capacity[AccountsTotal := Taken(t, AccountsTotal) + 1];
      assert EmailOpen(g.state, step.email) <==> EmailOpen(t, step.email);
      var e := plan.effects[0].Chained(g.state, 1);
      if e.Rows? {
        assert RunChain([], e.state, 1) == Done(e.state, []);
        assert RunChain(plan.effects, g.state, 1) == Done(e.state, [1]);
      }
    }
  }

  /** Only an open reservation is closed, together with the counter and the audit entry. */
  lemma ReleaseDecides(t: Tables, id: string, auditId: string, cap: int)
    ensures var r := Commit(PlanOf(Release(id, auditId), cap), t);
            if id !in Open(t) then r == (ConditionMissed, t)
            else if AccountsTotal in t.capacity && auditId in t.audits then r == (Rejected, t)
            else if AccountsTotal in t.capacity then
              r == (Committed, WithCounter(t, AccountsTotal, Taken(t, AccountsTotal) - 1).(
                reservations := t.reservations[id := t.reservations[id].(slot := Released)],
                audits := t.audits + {auditId}))
            else r.0 == InvariantBroken
  {
    var plan := PlanOf(Release(id, auditId), cap);
    if id !in Open(t) {
      GuardMissIsNoOp(plan, t);
    } else {
      var g := plan.guard(t);
      var tail := plan.effects[1..];
      assert tail == [Insert(1, InsertAudit(auditId))] && tail[1..] == [];
      var e := plan.effects[0].Chained(g.state, 1);
      if e.NoRows? {
        BrokenChainIsSilent(tail, g.state, 0);
      } else {
        var f := tail[0].Chained(e.state, 1);
        if f.Rows? {
          assert RunChain(tail, e.state, 1) == Done(f.state, [1]);
          assert RunChain(plan.effects, g.state, 1) == Done(f.state, [1, 1]);
        }
      }
    }
  }

  /** The account appears, its reservation is used up and the day's registrations are counted, all or none;
      the total is not touched, the slot just changes hands. */
  lemma ConvertDecides(t: Tables, s: Step, cap: int)
    requires s.Convert?
    ensures var r := Commit(PlanOf(s, cap), t);
            var counted := WithCounter(t, RegistrationsOn(s.day), Taken(t, RegistrationsOn(s.day)));
            var can := s.ready && s.id in t.reservations && t.reservations[s.id].slot == Reserved
                       && t.reservations[s.id].email == s.email && s.now < t.reservations[s.id].expiresAt
                       && (forall user :: user in t.users ==> t.users[user].email != s.email)
                       && Taken(t, RegistrationsOn(s.day)) < 10;
            if !can then r == (ConditionMissed, counted)
            else if s.user in t.users then r == (Rejected, t)
            else r == (Committed, Tables(
              t.capacity[RegistrationsOn(s.day) := Taken(t, RegistrationsOn(s.day)) + 1],
              t.reservations[s.id := t.reservations[s.id].(slot := Converted)],
              t.users[s.user := Account(s.email, false)], t.audits))
  {
    var plan := PlanOf(s, cap);
    var c := RegistrationsOn(s.day);
    var counted := WithCounter(t, c, Taken(t, c));
    assert c in t.capacity ==> counted.capacity == t.capacity;
    assert plan.preamble[1..] == [];
    assert RunPreamble(plan.preamble, t) == Done(counted, []);
    assert EmailUsed(counted, s.email) <==> EmailUsed(t, s.email);
    assert CanConvert(counted, s) <==> CanConvert(t, s);
    if CanConvert(t, s) {
      ConvertEffects(counted, s);
      assert counted.capacity[c := Taken(t, c) + 1] == t.capacity[c := Taken(t, c) + 1];
    } else {
      GuardMissIsNoOp(plan, t);
    }
  }

  lemma ConvertEffects(t: Tables, s: Step)
    requires s.Convert? && CanConvert(t, s) && RegistrationsOn(s.day) in t.capacity
    ensures var chain := RunChain(PlanOf(s, 0).effects, t, 1);
            if s.user in t.users then chain.Aborted?
            else chain == Done(Tables(
              t.capacity[RegistrationsOn(s.day) := t.capacity[RegistrationsOn(s.day)] + 1],
              t.reservations[s.id := t.reservations[s.id].(slot := Converted)],
              t.users[s.user := Account(s.email, false)], t.audits), [1, 1, 1])
  {
    var effects := PlanOf(s, 0).effects;
    var e := effects[0].Chained(t, 1);
    if e.Rows? {
      var one, two := effects[1..], effects[2..];
      assert one[1..] == two && two[1..] == [];
      var f := one[0].Chained(e.state, 1);
      var g := two[0].Chained(f.state, 1);
      assert RunChain(two, f.state, 1) == Done(g.state, [1]);
      assert RunChain(one, e.state, 1) == Done(g.state, [1, 1]);
    }
  }

  /** A deletion is finished once; its counter update is optional, so it is skipped only at zero. */
  lemma FinalizeDecides(t: Tables, user: string, tombstone: string, ready: bool, cap: int)
    ensures var r := Commit(PlanOf(Finalize(user, tombstone, ready), cap), t);
            var gone := t.(users := t.users[user := Account(tombstone, true)]);
            if !(ready && user in Living(t)) then r == (ConditionMissed, t)
            else if EmailUsed(t, tombstone) then r == (Rejected, t)
            else if Taken(t, AccountsTotal) > 0
            then r == (Committed, WithCounter(gone, AccountsTotal, Taken(t, AccountsTotal) - 1))
            else r == (Committed, gone)
  {
    var plan := PlanOf(Finalize(user, tombstone, ready), cap);
    if !(ready && user in Living(t)) {
      GuardMissIsNoOp(plan, t);
    } else if !EmailUsed(t, tombstone) {
      var g := plan.guard(t);
      assert plan.effects[1..] == [];
      var e := plan.effects[0].Chained(g.state, 1);
      assert RunChain([], StateAfter(e, g.state), Direct(e)) == Done(StateAfter(e, g.state), []);
      assert RunChain(plan.effects, g.state, 1) == Done(StateAfter(e, g.state), [Meta(e)]);
    }
  }

  /** Reserving against the live database. */
  method ReserveAdmissionSlot(db: Database<Tables>, step: Step, cap: int) returns (outcome: Outcome)
    requires step.Reserve?
    modifies db
    ensures outcome == ConditionMissed <==> Taken(old(db.state), AccountsTotal) >= (if step.attempt then cap else 0)
    ensures outcome == Rejected <==>
              var t := old(db.state);
              && Taken(t, AccountsTotal) < (if step.attempt then cap else 0)
              && (step.id in t.reservations
                  || exists id :: id in t.reservations && t.reservations[id].slot == Reserved
                                  && t.reservations[id].email == step.email)
    ensures var t := old(db.state);
            db.state ==
              if outcome == Rejected then t
              else if outcome == ConditionMissed
              then t.(capacity := t.capacity[AccountsTotal := Taken(t, AccountsTotal)])
              else t.(capacity := t.capacity[AccountsTotal := Taken(t, AccountsTotal) + 1],
                      reservations := t.reservations[step.id :=
                        Reservation(step.kind, step.email, Reserved, step.expiresAt)])
    ensures outcome in {ConditionMissed, Rejected, Committed}
  {
    ReserveDecides(db.state, step, cap);
    outcome := db.ConditionalCommit(PlanOf(step, cap));
  }

  /** Releasing against the live database: a commit closes exactly one open reservation. */
  method ReleaseAdmissionSlot(db: Database<Tables>, id: string, auditId: string, cap: int) returns (outcome: Outcome)
    modifies db
    ensures outcome == ConditionMissed <==> id !in Open(old(db.state))
    ensures outcome == Committed ==>
              && Open(db.state) == Open(old(db.state)) - {id} && db.state.audits == old(db.state).audits + {auditId}
              && Taken(db.state, AccountsTotal) == Taken(old(db.state), AccountsTotal) - 1
    ensures outcome in {ConditionMissed, Rejected} ==> db.state == old(db.state)
  {
    ReleaseDecides(db.state, id, auditId, cap);
    outcome := db.ConditionalCommit(PlanOf(Release(id, auditId), cap));
  }

  // ---------------------------------------------------------------- every run

  function Run(steps: seq<Step>, cap: int, t: Tables): Tables {
    if steps == [] then t else Run(steps[1..], cap, Commit(PlanOf(steps[0], cap), t).1)
  }

  predicate DistinctOpenEmails(t: Tables) {
    forall i, j :: i in Open(t) && j in Open(t) && i != j ==> t.reservations[i].email != t.reservations[j].email
  }

  predicate DistinctUserEmails(t: Tables) {
    forall i, j :: i in t.users && j in t.users && i != j ==> t.users[i].email != t.users[j].email
  }

  ghost predicate DaysWithin(capacity: map<Counter, int>) {
    forall day :: RegistrationsOn(day) in capacity ==> capacity[RegistrationsOn(day)] <= REGISTRATIONS_DAY
  }

  /** The counter is the open reservations and the living accounts together. */
  ghost predicate Consistent(t: Tables, cap: int) {
    && Taken(t, AccountsTotal) == |Open(t)| + |Living(t)| <= cap
    && (Open(t) + Living(t) != {} ==> AccountsTotal in t.capacity)
    && DistinctOpenEmails(t) && DistinctUserEmails(t)
    && DaysWithin(t.capacity)
  }

  lemma NewReservation(t: Tables, t': Tables, id: string, r: Reservation)
    requires DistinctOpenEmails(t) && id !in t.reservations && r.slot == Reserved && !EmailOpen(t, r.email)
    requires t'.reservations == t.reservations[id := r]
    ensures |Open(t')| == |Open(t)| + 1 && DistinctOpenEmails(t')
  {
    assert Open(t') == Open(t) + {id};
  }

  lemma ReserveKeepsCount(step: Step, cap: int, t: Tables)
    requires step.Reserve? && Consistent(t, cap) && cap >= 0
    ensures Consistent(Commit(PlanOf(step, cap), t).1, cap)
  {
    var r := Reserving(t, step, cap);
    ReserveDecides(t, step, cap);
    assert Living(r.1) == Living(t);
    if r.0 == Committed {
      NewReservation(t, r.1, step.id, Reservation(step.kind, step.email, Reserved, step.expiresAt));
    } else {
      assert Open(r.1) == Open(t);
    }
  }

  lemma ReleaseKeepsCount(step: Step, cap: int, t: Tables)
    requires step.Release? && Consistent(t, cap)
    ensures Consistent(Commit(PlanOf(step, cap), t).1, cap)
  {
    var t' := Commit(PlanOf(step, cap), t).1;
    ReleaseDecides(t, step.id, step.auditId, cap);
    if step.id in Open(t) && step.auditId !in t.audits {
      ReservationCloses(t, t', step.id, Released);
      assert Living(t') == Living(t);
    } else {
      assert t' == t;
    }
  }

  lemma ReservationCloses(t: Tables, t': Tables, id: string, to: SlotState)
    requires DistinctOpenEmails(t) && id in Open(t) && to != Reserved
    requires t'.reservations == t.reservations[id := t.reservations[id].(slot := to)]
    ensures |Open(t')| == |Open(t)| - 1 && DistinctOpenEmails(t')
  {
    assert Open(t') == Open(t) - {id};
    assert forall i :: i in Open(t') ==> t'.reservations[i] == t.reservations[i];
  }

  lemma AccountStarts(t: Tables, t': Tables, user: string, email: string)
    requires DistinctUserEmails(t) && user !in t.users && !EmailUsed(t, email)
    requires t'.users == t.users[user := Account(email, false)]
    ensures |Living(t')| == |Living(t)| + 1 && DistinctUserEmails(t')
  {
    assert Living(t') == Living(t) + {user};
  }

  lemma ConvertKeepsCount(step: Step, cap: int, t: Tables)
    requires step.Convert? && Consistent(t, cap)
    ensures Consistent(Commit(PlanOf(step, cap), t).1, cap)
  {
    var t' := Commit(PlanOf(step, cap), t).1;
    ConvertDecides(t, step, cap);
    if CanConvert(t, step) && step.user !in t.users {
      ReservationCloses(t, t', step.id, Converted);
      AccountStarts(t, t', step.user, step.email);
    } else {
      assert Open(t') == Open(t) && Living(t') == Living(t);
    }
  }

  lemma FinalizeKeepsCount(step: Step, cap: int, t: Tables)
    requires step.Finalize? && Consistent(t, cap)
    ensures Consistent(Commit(PlanOf(step, cap), t).1, cap)
  {
    var t' := Commit(PlanOf(step, cap), t).1;
    FinalizeDecides(t, step.user, step.tombstone, step.ready, cap);
    assert Open(t') == Open(t);
    if step.ready && step.user in Living(t) && !EmailUsed(t, step.tombstone) {
      assert Living(t') == Living(t) - {step.user};
    } else {
      assert t' == t;
    }
  }

  /** Over every interleaving of reservations, releases, registrations and deletions the counter is the
      number of open reservations and living accounts, never above its cap; no e-mail holds two open
      reservations or two accounts, and no day has more registrations than it may. */
  lemma {:induction false} RunKeepsCount(steps: seq<Step>, cap: nat, t: Tables)
    requires Consistent(t, cap)
    ensures Consistent(Run(steps, cap, t), cap)
  {
    if steps != [] {
      match steps[0] {
        case Reserve(_, _, _, _, _) => ReserveKeepsCount(steps[0], cap, t);
        case Release(_, _) => ReleaseKeepsCount(steps[0], cap, t);
        case Convert(_, _, _, _, _, _) => ConvertKeepsCount(steps[0], cap, t);
        case Finalize(_, _, _) => FinalizeKeepsCount(steps[0], cap, t);
      }
      RunKeepsCount(steps[1..], cap, Commit(PlanOf(steps[0], cap), t).1);
    }
  }

  /** An optional counter update that is never skipped: along a run a finished deletion always gives its
      place back. */
  lemma DeletionGivesBack(t: Tables, user: string, tombstone: string, cap: int)
    requires Consistent(t, cap) && user in Living(t) && !EmailUsed(t, tombstone)
    ensures var r := Commit(PlanOf(Finalize(user, tombstone, true), cap), t);
            r.0 == Committed && Taken(r.1, AccountsTotal) == Taken(t, AccountsTotal) - 1
  {
    FinalizeDecides(t, user, tombstone, true, cap);
    assert Living(t) == (Living(t) - {user}) + {user};
  }
}
