/** The daily mail budget: a readable decision table, the thresholds the ledger's guard compares with,
    and what they keep true over a day of reservations. */
module MailBudget {
  import opened Wrappers

  const MAIL_AUTH_DAY: int := 90
  const MAIL_SIGNUP_AUTH_DAY: int := 10
  const MAIL_BASE_DAY: int := 50
  const MAIL_URGENT_DAY: int := 120
  const MAIL_TOTAL_DAY: int := 260
  const MAIL_AUTH_FLOOR: int := 20
  const MAIL_URGENT_FLOOR: int := 20
  const MAIL_USER_BASE_DAY: int := 1
  const MAIL_USER_URGENT_DAY: int := 2

  datatype Pool = ExistingAuth | NewRegistration | BaseBusiness | UrgentBusiness

  datatype Occupancy = Occupancy(reserved: nat, settled: nat, uncertain: nat) {
    function Total(): nat { reserved + settled + uncertain }
  }

  const NO_OCCUPANCY: Occupancy := Occupancy(0, 0, 0)

  /** Rows the ledger read; user rows exist only for business mail. */
  datatype Snapshot = Snapshot(
    existing: Occupancy, registration: Occupancy, base: Occupancy, urgent: Occupancy,
    userBase: Option<Occupancy>, userUrgent: Option<Occupancy>)
  {
    function Of(pool: Pool): Occupancy {
      match pool
      case ExistingAuth => existing
      case NewRegistration => registration
      case BaseBusiness => base
      case UrgentBusiness => urgent
    }

    function AuthTotal(): Occupancy {
      Occupancy(existing.reserved + registration.reserved, existing.settled + registration.settled,
                existing.uncertain + registration.uncertain)
    }
  }

  function DayLimit(pool: Pool): int {
    match pool
    case ExistingAuth => MAIL_AUTH_DAY
    case NewRegistration => MAIL_SIGNUP_AUTH_DAY
    case BaseBusiness => MAIL_BASE_DAY
    case UrgentBusiness => MAIL_URGENT_DAY
  }

  /** What is left of a day, never below zero. */
  function Remaining(limit: int, o: Occupancy): int {
    if limit - o.Total() < 0 then 0 else limit - o.Total()
  }

  /** Landing exactly on the floor already tightens. */
  predicate FloorEngaged(remaining: int, floor: int) { remaining <= floor }

  datatype Intent =
    | SignupAuth | FirstLogin | AuthResend | AccountChange
    | Routine | UrgentCancelled | UrgentChange | UrgentLate

  datatype Reason =
    | UrgentDayExhausted | UrgentFloorDegraded | AuthDayExhausted | AuthFloorDegraded
    | SignupSubQuotaExhausted | BaseDayExhausted | UserDayExhausted

  datatype Decision = Approve(pool: Pool) | Reject(reason: Reason)

  predicate UserFull(row: Option<Occupancy>, limit: int) { row.Some? && row.value.Total() >= limit }

  function AuthRemaining(s: Snapshot): int { Remaining(MAIL_AUTH_DAY, s.AuthTotal()) }

  function DecideMailIntent(kind: Intent, s: Snapshot): Decision {
    match kind
    case SignupAuth =>
      if AuthRemaining(s) <= 0 then Reject(AuthDayExhausted)
      else if s.registration.Total() >= DayLimit(NewRegistration) then Reject(SignupSubQuotaExhausted)
      else if FloorEngaged(AuthRemaining(s), MAIL_AUTH_FLOOR) then Reject(AuthFloorDegraded)
      else Approve(NewRegistration)
    case FirstLogin =>
      if AuthRemaining(s) <= 0 then Reject(AuthDayExhausted) else Approve(ExistingAuth)
    case Routine =>
      if UserFull(s.userBase, MAIL_USER_BASE_DAY) then Reject(UserDayExhausted)
      else if Remaining(DayLimit(BaseBusiness), s.base) <= 0 then Reject(BaseDayExhausted)
      else Approve(BaseBusiness)
    case _ =>
      if kind == AuthResend || kind == AccountChange then
        (if AuthRemaining(s) <= 0 then Reject(AuthDayExhausted)
         else if FloorEngaged(AuthRemaining(s), MAIL_AUTH_FLOOR) then Reject(AuthFloorDegraded)
         else Approve(ExistingAuth))
      else if UserFull(s.userUrgent, MAIL_USER_URGENT_DAY) then Reject(UserDayExhausted)
      else
        var left := Remaining(DayLimit(UrgentBusiness), s.urgent);
        if left <= 0 then Reject(UrgentDayExhausted)
        else if kind != UrgentCancelled && FloorEngaged(left, MAIL_URGENT_FLOOR) then Reject(UrgentFloorDegraded)
        else Approve(UrgentBusiness)
  }

  // ---------------------------------------------------------------- the guard's thresholds

  datatype Plan = Plan(pool: Pool, rowLimit: int, authLimit: Option<int>, userLimit: Option<int>)

  function PlanMailReservation(kind: Intent): Plan {
    match kind
    case SignupAuth => Plan(NewRegistration, MAIL_SIGNUP_AUTH_DAY, Some(MAIL_AUTH_DAY - MAIL_AUTH_FLOOR), None)
    case FirstLogin => Plan(ExistingAuth, MAIL_AUTH_DAY, Some(MAIL_AUTH_DAY), None)
    case AuthResend => Plan(ExistingAuth, MAIL_AUTH_DAY, Some(MAIL_AUTH_DAY - MAIL_AUTH_FLOOR), None)
    case AccountChange => Plan(ExistingAuth, MAIL_AUTH_DAY, Some(MAIL_AUTH_DAY - MAIL_AUTH_FLOOR), None)
    case Routine => Plan(BaseBusiness, MAIL_BASE_DAY, None, Some(MAIL_USER_BASE_DAY))
    case UrgentCancelled => Plan(UrgentBusiness, MAIL_URGENT_DAY, None, Some(MAIL_USER_URGENT_DAY))
    case UrgentChange => Plan(UrgentBusiness, MAIL_URGENT_DAY - MAIL_URGENT_FLOOR, None, Some(MAIL_USER_URGENT_DAY))
    case UrgentLate => Plan(UrgentBusiness, MAIL_URGENT_DAY - MAIL_URGENT_FLOOR, None, Some(MAIL_USER_URGENT_DAY))
  }

  function UserRow(pool: Pool, s: Snapshot): Option<Occupancy> {
    if pool == BaseBusiness then s.userBase else if pool == UrgentBusiness then s.userUrgent else None
  }

  /** Strictly below every threshold. */
  predicate Below(p: Plan, s: Snapshot) {
    && s.Of(p.pool).Total() < p.rowLimit
    && (p.authLimit.Some? ==> s.AuthTotal().Total() < p.authLimit.value)
    && (p.userLimit.Some? && UserRow(p.pool, s).Some? ==> UserRow(p.pool, s).value.Total() < p.userLimit.value)
  }

  /** The table approves exactly when the guard would, for every intent and every occupancy. */
  lemma DecisionIsTheGuard(kind: Intent, s: Snapshot)
    ensures DecideMailIntent(kind, s).Approve? <==> Below(PlanMailReservation(kind), s)
    ensures DecideMailIntent(kind, s).Approve? ==> DecideMailIntent(kind, s).pool == PlanMailReservation(kind).pool
  {
  }

  // ---------------------------------------------------------------- a day of reservations

  /** The day's ledger: the pools, and each user's base and urgent mail. */
  datatype Ledger = Ledger(
    existing: Occupancy, registration: Occupancy, base: Occupancy, urgent: Occupancy,
    userBase: map<string, Occupancy>, userUrgent: map<string, Occupancy>)

  const FRESH_DAY: Ledger := Ledger(NO_OCCUPANCY, NO_OCCUPANCY, NO_OCCUPANCY, NO_OCCUPANCY, map[], map[])

  function Row(rows: map<string, Occupancy>, user: string): Occupancy {
    if user in rows then rows[user] else NO_OCCUPANCY
  }

  function View(l: Ledger, user: string): Snapshot {
    Snapshot(l.existing, l.registration, l.base, l.urgent, Some(Row(l.userBase, user)), Some(Row(l.userUrgent, user)))
  }

  /** What happens to an occupied place: it settles, becomes uncertain, or is released unsent. */
  datatype Fate = Settle | Doubt | Clear | Release

  datatype Step =
    | Reserve(kind: Intent, user: string)
    | Follow(pool: Pool, user: string, fate: Fate)

  function More(o: Occupancy): Occupancy { o.(reserved := o.reserved + 1) }

  predicate CanFollow(o: Occupancy, fate: Fate) { if fate == Clear then o.uncertain > 0 else o.reserved > 0 }

  function Followed(o: Occupancy, fate: Fate): Occupancy
    requires CanFollow(o, fate)
  {
    match fate
    case Settle => o.(reserved := o.reserved - 1, settled := o.settled + 1)
    case Doubt => o.(reserved := o.reserved - 1, uncertain := o.uncertain + 1)
    case Clear => o.(uncertain := o.uncertain - 1, settled := o.settled + 1)
    case Release => o.(reserved := o.reserved - 1)
  }

  function WithPool(l: Ledger, pool: Pool, o: Occupancy): Ledger {
    match pool
    case ExistingAuth => l.(existing := o)
    case NewRegistration => l.(registration := o)
    case BaseBusiness => l.(base := o)
    case UrgentBusiness => l.(urgent := o)
  }

  function WithUser(l: Ledger, pool: Pool, user: string, o: Occupancy): Ledger {
    match pool
    case BaseBusiness => l.(userBase := l.userBase[user := o])
    case UrgentBusiness => l.(userUrgent := l.userUrgent[user := o])
    case _ => l
  }

  function UserOf(l: Ledger, pool: Pool, user: string): Occupancy {
    if pool == BaseBusiness then Row(l.userBase, user)
    else if pool == UrgentBusiness then Row(l.userUrgent, user) else NO_OCCUPANCY
  }

  predicate Business(pool: Pool) { pool == BaseBusiness || pool == UrgentBusiness }

  function Reserved(l: Ledger, pool: Pool, user: string): Ledger {
    match pool
    case ExistingAuth => l.(existing := More(l.existing))
    case NewRegistration => l.(registration := More(l.registration))
    case BaseBusiness => l.(base := More(l.base), userBase := l.userBase[user := More(Row(l.userBase, user))])
    case UrgentBusiness => l.(urgent := More(l.urgent),
        userUrgent := l.userUrgent[user := More(Row(l.userUrgent, user))])
  }

  /** A reservation is admitted only by the guard; a step whose condition fails changes nothing. */
  function Apply(l: Ledger, s: Step): Ledger {
    match s
    case Reserve(kind, user) =>
      var p := PlanMailReservation(kind);
      if !Below(p, View(l, user)) then l
      else Reserved(l, p.pool, user)
    case Follow(pool, user, fate) =>
      if !CanFollow(View(l, user).Of(pool), fate) || (Business(pool) && !CanFollow(UserOf(l, pool, user), fate)) then l
      else
        var moved := WithPool(l, pool, Followed(View(l, user).Of(pool), fate));
        if Business(pool) then WithUser(moved, pool, user, Followed(UserOf(l, pool, user), fate)) else moved
  }

  function Run(l: Ledger, steps: seq<Step>): Ledger {
    if steps == [] then l else Apply(Run(l, steps[..|steps| - 1]), steps[|steps| - 1])
  }

  function AuthTotal(l: Ledger): nat { l.existing.Total() + l.registration.Total() }

  predicate PoolsWithin(l: Ledger) {
    && AuthTotal(l) <= MAIL_AUTH_DAY && l.registration.Total() <= MAIL_SIGNUP_AUTH_DAY
    && l.base.Total() <= MAIL_BASE_DAY && l.urgent.Total() <= MAIL_URGENT_DAY
  }

  predicate UsersWithin(rows: map<string, Occupancy>, limit: int) {
    forall user :: user in rows ==> rows[user].Total() <= limit
  }

  predicate Within(l: Ledger) {
    PoolsWithin(l) && UsersWithin(l.userBase, MAIL_USER_BASE_DAY) && UsersWithin(l.userUrgent, MAIL_USER_URGENT_DAY)
  }

  lemma OneUser(rows: map<string, Occupancy>, limit: int, user: string, o: Occupancy)
    requires UsersWithin(rows, limit) && o.Total() <= limit
    ensures UsersWithin(rows[user := o], limit)
  {
  }

  lemma AuthStaysWithin(l: Ledger, pool: Pool, user: string)
    requires Within(l) && !Business(pool) && AuthTotal(l) < MAIL_AUTH_DAY
    requires pool == NewRegistration ==> l.registration.Total() < MAIL_SIGNUP_AUTH_DAY
    ensures Within(Reserved(l, pool, user))
  {
  }

  lemma PoolsStayWithin(l: Ledger, pool: Pool, user: string)
    requires PoolsWithin(l) && Business(pool)
    requires pool == BaseBusiness ==> l.base.Total() < MAIL_BASE_DAY
    requires pool == UrgentBusiness ==> l.urgent.Total() < MAIL_URGENT_DAY
    ensures PoolsWithin(Reserved(l, pool, user))
  {
  }

  lemma BaseStaysWithin(l: Ledger, user: string)
    requires Within(l) && l.base.Total() < MAIL_BASE_DAY && Row(l.userBase, user).Total() < MAIL_USER_BASE_DAY
    ensures Within(Reserved(l, BaseBusiness, user))
  {
    PoolsStayWithin(l, BaseBusiness, user);
    OneMoreForUser(l.userBase, MAIL_USER_BASE_DAY, user);
  }

  lemma UrgentStaysWithin(l: Ledger, user: string)
    requires Within(l) && l.urgent.Total() < MAIL_URGENT_DAY && Row(l.userUrgent, user).Total() < MAIL_USER_URGENT_DAY
    ensures Within(Reserved(l, UrgentBusiness, user))
  {
    PoolsStayWithin(l, UrgentBusiness, user);
    OneMoreForUser(l.userUrgent, MAIL_USER_URGENT_DAY, user);
  }

  lemma OneMoreForUser(rows: map<string, Occupancy>, limit: int, user: string)
    requires UsersWithin(rows, limit) && Row(rows, user).Total() < limit
    ensures UsersWithin(rows[user := More(Row(rows, user))], limit)
  {
    OneUser(rows, limit, user, More(Row(rows, user)));
  }

  lemma ReserveStaysWithin(l: Ledger, kind: Intent, user: string)
    requires Within(l)
    ensures Within(Apply(l, Reserve(kind, user)))
  {
    var p := PlanMailReservation(kind);
    if Below(p, View(l, user)) {
      if p.pool == BaseBusiness {
        BaseStaysWithin(l, user);
      } else if p.pool == UrgentBusiness {
        UrgentStaysWithin(l, user);
      } else {
        AuthStaysWithin(l, p.pool, user);
      }
    }
  }

  lemma FollowStaysWithin(l: Ledger, pool: Pool, user: string, fate: Fate)
    requires Within(l)
    ensures Within(Apply(l, Follow(pool, user, fate)))
  {
    if pool == BaseBusiness && CanFollow(Row(l.userBase, user), fate) {
      OneUser(l.userBase, MAIL_USER_BASE_DAY, user, Followed(Row(l.userBase, user), fate));
    } else if pool == UrgentBusiness && CanFollow(Row(l.userUrgent, user), fate) {
      OneUser(l.userUrgent, MAIL_USER_URGENT_DAY, user, Followed(Row(l.userUrgent, user), fate));
    }
  }

  /** Whatever is reserved, settled, doubted or released during a day: every pool, the auth total, each
      user's share and the sum of all mail stay within their daily limits. */
  lemma {:induction false} DayStaysWithinLimits(steps: seq<Step>)
    ensures var l := Run(FRESH_DAY, steps);
            Within(l) && AuthTotal(l) + l.base.Total() + l.urgent.Total() <= MAIL_TOTAL_DAY
  {
    StepsStayWithin(steps);
  }

  lemma {:induction false} StepsStayWithin(steps: seq<Step>)
    ensures Within(Run(FRESH_DAY, steps))
  {
    if steps == [] {
      assert Within(FRESH_DAY);
    } else {
      var k := |steps| - 1;
      StepsStayWithin(steps[..k]);
      StepStaysWithin(Run(FRESH_DAY, steps[..k]), steps[k]);
    }
  }

  lemma StepStaysWithin(l: Ledger, s: Step)
    requires Within(l)
    ensures Within(Apply(l, s))
  {
    match s
    case Reserve(kind, user) => ReserveStaysWithin(l, kind, user);
    case Follow(pool, user, fate) => FollowStaysWithin(l, pool, user, fate);
  }

  predicate Sheddable(kind: Intent) { kind == SignupAuth || kind == AuthResend || kind == AccountChange }

  /** Over any day: only first logins ever take the auth total past its floor line, and only cancellations
      take the urgent pool past its own; both can be used up to the full day. */
  lemma {:induction false} FloorsAreKept(steps: seq<Step>, kind: Intent, user: string)
    ensures var l := Run(FRESH_DAY, steps);
            var after := Apply(l, Reserve(kind, user));
            && (Sheddable(kind) && after != l ==> AuthTotal(after) <= MAIL_AUTH_DAY - MAIL_AUTH_FLOOR)
            && ((kind == UrgentChange || kind == UrgentLate) && after != l ==>
                  after.urgent.Total() <= MAIL_URGENT_DAY - MAIL_URGENT_FLOOR)
            && (kind == FirstLogin && AuthTotal(l) < MAIL_AUTH_DAY ==> AuthTotal(after) == AuthTotal(l) + 1)
            && (kind == UrgentCancelled && l.urgent.Total() < MAIL_URGENT_DAY
                && Row(l.userUrgent, user).Total() < MAIL_USER_URGENT_DAY ==>
                  after.urgent.Total() == l.urgent.Total() + 1)
  {
    FloorStep(Run(FRESH_DAY, steps), kind, user);
  }

  lemma FloorStep(l: Ledger, kind: Intent, user: string)
    ensures var after := Apply(l, Reserve(kind, user));
            && (Sheddable(kind) && after != l ==> AuthTotal(after) <= MAIL_AUTH_DAY - MAIL_AUTH_FLOOR)
            && ((kind == UrgentChange || kind == UrgentLate) && after != l ==>
                  after.urgent.Total() <= MAIL_URGENT_DAY - MAIL_URGENT_FLOOR)
            && (kind == FirstLogin && AuthTotal(l) < MAIL_AUTH_DAY ==> AuthTotal(after) == AuthTotal(l) + 1)
            && (kind == UrgentCancelled && l.urgent.Total() < MAIL_URGENT_DAY
                && Row(l.userUrgent, user).Total() < MAIL_USER_URGENT_DAY ==>
                  after.urgent.Total() == l.urgent.Total() + 1)
  {
  }

  /** When the table refuses a sheddable auth mail although the day is not used up, the reason names what
      ran out: the sign-up share, or the floor kept for first logins. */
  lemma AuthRefusalsAreExplained(kind: Intent, s: Snapshot)
    requires Sheddable(kind) && s.AuthTotal().Total() < MAIL_AUTH_DAY
    ensures DecideMailIntent(kind, s) == Reject(SignupSubQuotaExhausted) <==>
              (kind == SignupAuth && s.registration.Total() >= MAIL_SIGNUP_AUTH_DAY)
    ensures DecideMailIntent(kind, s) == Reject(AuthFloorDegraded) <==>
              (s.AuthTotal().Total() >= MAIL_AUTH_DAY - MAIL_AUTH_FLOOR
               && !(kind == SignupAuth && s.registration.Total() >= MAIL_SIGNUP_AUTH_DAY))
  {
  }

  // ---------------------------------------------------------------- the table in numbers

  predicate UserBelow(row: Option<Occupancy>, limit: int) { row.Some? ==> row.value.Total() < limit }

  /** Which mail is approved, and from which pool: sign-ups, resends and account changes below seventy auth mails of the
      day, first logins below ninety, routine mail below fifty and one per user, cancellations below a hundred and
      twenty, other urgent mail below a hundred, both with two per user. */
  lemma ApprovedExactly(kind: Intent, s: Snapshot)
    ensures var auth := s.existing.Total() + s.registration.Total();
            && (DecideMailIntent(kind, s) == Approve(NewRegistration) <==>
                  kind == SignupAuth && auth < 70 && s.registration.Total() < 10)
            && (DecideMailIntent(kind, s) == Approve(ExistingAuth) <==>
                  (kind == FirstLogin && auth < 90) || (kind in {AuthResend, AccountChange} && auth < 70))
            && (DecideMailIntent(kind, s) == Approve(BaseBusiness) <==>
                  kind == Routine && s.base.Total() < 50 && UserBelow(s.userBase, 1))
            && (DecideMailIntent(kind, s) == Approve(UrgentBusiness) <==>
                  UserBelow(s.userUrgent, 2)
                  && ((kind == UrgentCancelled && s.urgent.Total() < 120)
                      || (kind in {UrgentChange, UrgentLate} && s.urgent.Total() < 100)))
  {
  }

  /** Why business mail is refused: first the user's own share, then the day, then the floor kept for cancellations. */
  lemma BusinessRefusalsAreExplained(kind: Intent, s: Snapshot)
    requires kind in {Routine, UrgentCancelled, UrgentChange, UrgentLate}
    ensures var own := if kind == Routine then UserBelow(s.userBase, 1) else UserBelow(s.userUrgent, 2);
            var d := DecideMailIntent(kind, s);
            && (d == Reject(UserDayExhausted) <==> !own)
            && (d == Reject(BaseDayExhausted) <==> own && kind == Routine && s.base.Total() >= 50)
            && (d == Reject(UrgentDayExhausted) <==> own && kind != Routine && s.urgent.Total() >= 120)
            && (d == Reject(UrgentFloorDegraded) <==>
                  own && kind in {UrgentChange, UrgentLate} && 100 <= s.urgent.Total() < 120)
  {
  }

  /** When the auth day is used up, that is the reason given. */
  lemma FullAuthDayIsNamed(kind: Intent, s: Snapshot)
    requires kind in {SignupAuth, FirstLogin, AuthResend, AccountChange}
    ensures DecideMailIntent(kind, s) == Reject(AuthDayExhausted) <==>
              s.existing.Total() + s.registration.Total() >= 90
  {
  }

  // ---------------------------------------------------------------- every place is accounted for

  function PoolOf(l: Ledger, pool: Pool): Occupancy { View(l, "").Of(pool) }

  lemma ReservedPlaces(l: Ledger, from: Pool, user: string, pool: Pool, other: string)
    ensures PoolOf(Reserved(l, from, user), pool).Total() == PoolOf(l, pool).Total() + (if pool == from then 1 else 0)
    ensures UserOf(Reserved(l, from, user), pool, other).Total() ==
              UserOf(l, pool, other).Total() + (if pool == from && Business(from) && other == user then 1 else 0)
  {
  }

  /** A reservation occupies one place, of the pool its intent names and of the user's own share, and none if the table
      refuses it. */
  lemma ReservingTakesOnePlace(l: Ledger, kind: Intent, user: string, pool: Pool, other: string)
    ensures var l' := Apply(l, Reserve(kind, user));
            var taken := DecideMailIntent(kind, View(l, user)) == Approve(pool);
            && PoolOf(l', pool).Total() == PoolOf(l, pool).Total() + (if taken then 1 else 0)
            && UserOf(l', pool, other).Total() ==
                 UserOf(l, pool, other).Total() + (if taken && Business(pool) && other == user then 1 else 0)
  {
    DecisionIsTheGuard(kind, View(l, user));
    ReservedPlaces(l, PlanMailReservation(kind).pool, user, pool, other);
  }

  lemma FollowedTotal(o: Occupancy, fate: Fate)
    requires CanFollow(o, fate)
    ensures Followed(o, fate).Total() == o.Total() - (if fate == Release then 1 else 0)
  {
  }

  /** The step applies: the place is there, for business mail in the user's share too. */
  predicate Applies(l: Ledger, from: Pool, user: string, fate: Fate) {
    CanFollow(PoolOf(l, from), fate) && (Business(from) ==> CanFollow(UserOf(l, from, user), fate))
  }

  lemma FollowedPools(l: Ledger, from: Pool, user: string, fate: Fate, pool: Pool)
    requires Applies(l, from, user, fate)
    ensures PoolOf(Apply(l, Follow(from, user, fate)), pool) ==
              if pool == from then Followed(PoolOf(l, from), fate) else PoolOf(l, pool)
  {
  }

  lemma FollowedUsers(l: Ledger, from: Pool, user: string, fate: Fate, pool: Pool, other: string)
    requires Applies(l, from, user, fate)
    ensures UserOf(Apply(l, Follow(from, user, fate)), pool, other) ==
              if pool == from && Business(from) && other == user then Followed(UserOf(l, from, user), fate)
              else UserOf(l, pool, other)
  {
  }

  /** Settling, doubting and clearing keep a place occupied; only releasing an unsent mail gives one back. */
  lemma OnlyReleasingGivesBack(l: Ledger, from: Pool, user: string, fate: Fate, pool: Pool, other: string)
    ensures var l' := Apply(l, Follow(from, user, fate));
            var released := fate == Release && pool == from && PoolOf(l, from).reserved > 0
                            && (Business(from) ==> UserOf(l, from, user).reserved > 0);
            && PoolOf(l', pool).Total() == PoolOf(l, pool).Total() - (if released then 1 else 0)
            && UserOf(l', pool, other).Total() ==
                 UserOf(l, pool, other).Total() - (if released && Business(from) && other == user then 1 else 0)
  {
    if Applies(l, from, user, fate) {
      FollowedPools(l, from, user, fate, pool);
      FollowedUsers(l, from, user, fate, pool, other);
      FollowedTotal(PoolOf(l, from), fate);
      if Business(from) { FollowedTotal(UserOf(l, from, user), fate); }
    } else {
      assert Apply(l, Follow(from, user, fate)) == l;
    }
  }
}
