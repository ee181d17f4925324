/** The rows of push delivery and the batches that change them.  A batch is atomic; each function is
    one batch, statement by statement, and each method runs it against the live database. */
module PushTables {
  import opened Wrappers
  import Cas

  const PUSH_SEND_DAY: nat := 5000
  const PUSH_CRITICAL_RESERVED_DAY: nat := 500
  const WATCHDOG_MS: nat := 600_000
  const CALL_LEASE_MS: nat := 120_000
  const DAY_MS: nat := 86_400_000

  /** Ordinary sends may not use the part of the day reserved for critical ones. */
  function SendDayLimit(critical: bool): nat {
    if critical then PUSH_SEND_DAY else PUSH_SEND_DAY - PUSH_CRITICAL_RESERVED_DAY
  }

  datatype Status = Pending | Calling | Accepted | RetryWait | Unknown | Failed | Skipped | Superseded | Expired
  datatype Purpose = Activation | Test | Business

  datatype Message = Message(
    purpose: Purpose, critical: bool, delivery: Option<string>, status: Status, attempts: nat,
    lease: nat, leaseExpires: Option<int>, nextAttempt: Option<int>, expiresAt: int)

  /** `send` holds the counter of each UTC day that has one. */
  datatype Tables = Tables(messages: map<string, Message>, deliveries: map<string, Status>, send: map<int, nat>)

  predicate Waiting(s: Status) { s == Pending || s == RetryWait }

  function SentOn(t: Tables, day: int): nat { if day in t.send then t.send[day] else 0 }

  // ---------------------------------------------------------------- single statements

  /** `UPDATE deliveries SET status=? WHERE id=? AND status IN (...)`; a null id matches no row. */
  function MoveDelivery(t: Tables, delivery: Option<string>, from: set<Status>, to: Status): Tables {
    if delivery.Some? && delivery.value in t.deliveries && t.deliveries[delivery.value] in from
    then t.(deliveries := t.deliveries[delivery.value := to]) else t
  }

  predicate Holds(t: Tables, id: string, status: Status, lease: nat) {
    id in t.messages && t.messages[id].status == status && t.messages[id].lease == lease
  }

  // ---------------------------------------------------------------- results of a call

  datatype Outcome = ProviderAccepted | Gone | Rejected | AuthRejected | RetryLater | ResultUnknown

  predicate Refused(o: Outcome) { o == AuthRejected || o == RetryLater }

  function Pow2(n: nat): (p: nat)
    ensures p >= 1
  {
    if n == 0 then 1 else 2 * Pow2(n - 1)
  }

  function Exponent(attempts: nat): (e: nat)
    ensures e <= 16
  {
    if attempts == 0 then 0 else if attempts - 1 > 16 then 16 else attempts - 1
  }

  function RetryDelay(attempts: nat, retryAfter: Option<int>): int {
    var backoff := WATCHDOG_MS * Pow2(Exponent(attempts));
    var asked := if retryAfter.Some? then retryAfter.value else 0;
    if asked > backoff then asked else backoff
  }

  datatype Transition = Transition(status: Status, nextAttempt: Option<int>)

  function TransitionFor(m: Message, attempts: nat, outcome: Outcome, retryAfter: Option<int>, now: int): Transition {
    match outcome
    case ProviderAccepted => Transition(Accepted, None)
    case ResultUnknown => Transition(Unknown, None)
    case Gone => Transition(Failed, None)
    case Rejected => Transition(Failed, None)
    case _ =>
      if m.purpose != Business then Transition(Failed, None)
      else
        var next := now + RetryDelay(attempts, retryAfter);
        if next >= m.expiresAt then Transition(Expired, None) else Transition(RetryWait, Some(next))
  }

  lemma {:induction false} Pow2Grows(m: nat, n: nat)
    requires m <= n
    ensures Pow2(m) <= Pow2(n)
  {
    if m < n { Pow2Grows(m, n - 1); }
  }

  /** Backoff never shrinks with the number of attempts and honours a longer Retry-After. */
  lemma RetryDelayGrows(a: nat, b: nat, retryAfter: Option<int>)
    requires a <= b
    ensures WATCHDOG_MS <= RetryDelay(a, retryAfter) <= RetryDelay(b, retryAfter)
    ensures retryAfter.Some? ==> retryAfter.value <= RetryDelay(a, retryAfter)
    ensures RetryDelay(b, None) <= WATCHDOG_MS * Pow2(16)
  {
    Pow2Grows(Exponent(a), Exponent(b));
    Pow2Grows(Exponent(b), 16);
  }

  /** A message is scheduled again exactly when the service refused it for now, the message is a
      notification, and the next attempt still falls inside its lifetime; only an acceptance accepts it,
      and only a lost answer leaves it unknown. */
  lemma RetryOnlyAfterRefusal(m: Message, attempts: nat, outcome: Outcome, retryAfter: Option<int>, now: int)
    ensures var tr := TransitionFor(m, attempts, outcome, retryAfter, now);
            (tr.status == RetryWait <==>
             (m.purpose == Business && Refused(outcome) && now + RetryDelay(attempts, retryAfter) < m.expiresAt))
            && (tr.status == RetryWait ==> tr.nextAttempt.Some? && now < tr.nextAttempt.value < m.expiresAt)
            && (tr.status == Accepted <==> outcome == ProviderAccepted)
            && (tr.status == Unknown <==> outcome == ResultUnknown)
            && (tr.status == Expired <==>
                (m.purpose == Business && Refused(outcome) && m.expiresAt <= now + RetryDelay(attempts, retryAfter)))
            && tr.status !in {Pending, Calling, Skipped, Superseded}
  {
    RetryDelayGrows(attempts, attempts, retryAfter);
  }

  /** How long a refused notification waits after so many calls: the longer of the doubled watchdog interval,
      doubled at most sixteen times, and of what the service asked for. */
  predicate IsRetryDelay(delay: int, attempts: nat, retryAfter: Option<int>) {
    var doublings := if attempts <= 1 then 0 else if attempts <= 17 then attempts - 1 else 16;
    var backoff := WATCHDOG_MS * Pow2(doublings);
    && delay >= backoff
    && (retryAfter.Some? ==> delay >= retryAfter.value)
    && (delay == backoff || retryAfter == Some(delay))
  }

  /** The status a call leaves, by its outcome, and the time of the next one. */
  lemma RetryIsTimed(
      m: Message, attempts: nat, outcome: Outcome, retryAfter: Option<int>, now: int, delay: int)
    requires IsRetryDelay(delay, attempts, retryAfter)
    ensures TransitionFor(m, attempts, outcome, retryAfter, now) ==
              if outcome == ProviderAccepted then Transition(Accepted, None)
              else if outcome == ResultUnknown then Transition(Unknown, None)
              else if outcome == Gone || outcome == Rejected || m.purpose != Business then Transition(Failed, None)
              else if now + delay < m.expiresAt then Transition(RetryWait, Some(now + delay))
              else Transition(Expired, None)
  {
  }

  lemma RetryDelayExists(attempts: nat, retryAfter: Option<int>) returns (delay: int)
    ensures IsRetryDelay(delay, attempts, retryAfter)
  {
    delay := RetryDelay(attempts, retryAfter);
  }

  // ---------------------------------------------------------------- result writes

  datatype Write =
    | ResultWrite(id: string, lease: nat, delivery: Option<string>, status: Status, nextAttempt: Option<int>)
    | FailureWrite(id: string, lease: nat, delivery: Option<string>)   // the catch branch of one send

  function StatusOf(w: Write): Status { if w.ResultWrite? then w.status else Failed }

  /** The message row is guarded by its lease; the delivery row only by its status. */
  function Landed(t: Tables, w: Write): Tables {
    var t1 :=
      if Holds(t, w.id, Calling, w.lease) then
        var m := t.messages[w.id];
        t.(messages := t.messages[w.id := m.(status := StatusOf(w), leaseExpires := None,
                                             nextAttempt := if w.ResultWrite? then w.nextAttempt else m.nextAttempt)])
      else t;
    MoveDelivery(t1, w.delivery, {Calling}, StatusOf(w))
  }

  /** What a landing result does to each row: the message only while it is being called under that very claim, the
      delivery whenever it is being called. */
  lemma LandingMeans(t: Tables, w: Write)
    ensures var t' := Landed(t, w);
            && t'.send == t.send && t'.messages.Keys == t.messages.Keys && t'.deliveries.Keys == t.deliveries.Keys
            && (forall id :: id in t.messages ==>
                  var m := t.messages[id];
                  t'.messages[id] ==
                    if id != w.id || m.status != Calling || m.lease != w.lease then m
                    else if w.FailureWrite? then m.(status := Failed, leaseExpires := None)
                    else m.(status := w.status, leaseExpires := None, nextAttempt := w.nextAttempt))
            && (forall d :: d in t.deliveries ==>
                  t'.deliveries[d] ==
                    if w.delivery != Some(d) || t.deliveries[d] != Calling then t.deliveries[d]
                    else if w.FailureWrite? then Failed else w.status)
  {
  }

  method WriteBack(db: Cas.Database<Tables>, w: Write)
    modifies db
    ensures db.state == Landed(old(db.state), w)
  {
    var t := db.state;
    if w.id in t.messages {
      var m := t.messages[w.id];
      if m.status == Calling && m.lease == w.lease {
        m := m.(status := StatusOf(w), leaseExpires := None);
        if w.ResultWrite? { m := m.(nextAttempt := w.nextAttempt); }
        t := t.(messages := t.messages[w.id := m]);
      }
    }
    db.state := MoveDelivery(t, w.delivery, {Calling}, StatusOf(w));
  }

  // ---------------------------------------------------------------- maintenance

  predicate Stale(m: Message, now: int) { m.status == Calling && m.leaseExpires.Some? && m.leaseExpires.value <= now }
  predicate PastExpiry(m: Message, now: int) { Waiting(m.status) && m.expiresAt <= now }

  /** The deliveries of the selected messages: `id IN (SELECT delivery_id FROM push_messages WHERE id IN (...))`. */
  predicate Carries(messages: map<string, Message>, page: set<string>, delivery: string) {
    exists id :: id in page && id in messages && messages[id].delivery == Some(delivery)
  }

  function SetMessages(messages: map<string, Message>, page: set<string>, to: Status): map<string, Message> {
    map id | id in messages ::
      if id in page then messages[id].(status := to,
        leaseExpires := if to == Unknown then None else messages[id].leaseExpires)
      else messages[id]
  }

  function SetDeliveries(t: Tables, page: set<string>, from: set<Status>, to: Status): map<string, Status> {
    map d | d in t.deliveries ::
      if t.deliveries[d] in from && Carries(t.messages, page, d) then to else t.deliveries[d]
  }

  function StalePage(t: Tables, now: int, selected: set<string>): set<string> {
    set id | id in selected && id in t.messages && Stale(t.messages[id], now)
  }

  function ExpiredPage(t: Tables, now: int, selected: set<string>): set<string> {
    set id | id in selected && id in t.messages && PastExpiry(t.messages[id], now)
  }

  /** What one maintenance batch means for each row, whichever rows the page limit selected. */
  function Maintained(t: Tables, now: int, selected: set<string>): Tables {
    Tables(
      map id | id in t.messages ::
        var m := t.messages[id];
        if id !in selected then m
        else if Stale(m, now) then m.(status := Unknown, leaseExpires := None)
        else if PastExpiry(m, now) then m.(status := Expired)
        else m,
      map d | d in t.deliveries ::
        if t.deliveries[d] == Calling && Carries(t.messages, StalePage(t, now, selected), d) then Unknown
        else if Waiting(t.deliveries[d]) && Carries(t.messages, ExpiredPage(t, now, selected), d) then Expired
        else t.deliveries[d],
      t.send)
  }

  /** Four statements in one batch; the second pair selects from what the first pair left. */
  method MaintainPushMessages(db: Cas.Database<Tables>, now: int, selected: set<string>)
    modifies db
    ensures db.state == Maintained(old(db.state), now, selected)
    ensures forall id :: id in old(db.state).messages ==>
              var m := old(db.state).messages[id];
              id in db.state.messages && db.state.messages[id] ==
                if id in selected && m.status == Calling && m.leaseExpires.Some? && m.leaseExpires.value <= now
                then m.(status := Unknown, leaseExpires := None)
                else if id in selected && m.status in {Pending, RetryWait} && m.expiresAt <= now
                then m.(status := Expired) else m
  {
    var t0 := db.state;
    TwoHalves(t0, now, selected);
    var stale := StalePage(t0, now, selected);
    var t1 := t0.(deliveries := SetDeliveries(t0, stale, {Calling}, Unknown));
    var t2 := t1.(messages := SetMessages(t1.messages, stale, Unknown));
    var expired := ExpiredPage(t2, now, selected);
    var t3 := t2.(deliveries := SetDeliveries(t2, expired, {Pending, RetryWait}, Expired));
    var t4 := t3.(messages := SetMessages(t3.messages, expired, Expired));
    db.state := t4;
  }

  function HalfDone(t0: Tables, stale: set<string>): Tables {
    t0.(deliveries := SetDeliveries(t0, stale, {Calling}, Unknown),
        messages := SetMessages(t0.messages, stale, Unknown))
  }

  /** The expiry half selects the same rows before and after the lease half, and together they are the batch. */
  lemma TwoHalves(t0: Tables, now: int, selected: set<string>)
    ensures var t2 := HalfDone(t0, StalePage(t0, now, selected));
            var expired := ExpiredPage(t2, now, selected);
            && SetDeliveries(t2, expired, {Pending, RetryWait}, Expired) == Maintained(t0, now, selected).deliveries
            && SetMessages(t2.messages, expired, Expired) == Maintained(t0, now, selected).messages
  {
    var t2 := HalfDone(t0, StalePage(t0, now, selected));
    assert ExpiredPage(t2, now, selected) == ExpiredPage(t0, now, selected);
    SameCarriers(t0.messages, t2.messages, ExpiredPage(t0, now, selected));
    DeliveryHalves(t0, now, selected);
    MessageHalves(t0, now, selected);
  }

  lemma MessageHalves(t0: Tables, now: int, selected: set<string>)
    ensures SetMessages(SetMessages(t0.messages, StalePage(t0, now, selected), Unknown),
        ExpiredPage(t0, now, selected), Expired)
            == Maintained(t0, now, selected).messages
  {
  }

  lemma DeliveryHalves(t0: Tables, now: int, selected: set<string>)
    ensures var t1 := t0.(deliveries := SetDeliveries(t0, StalePage(t0, now, selected), {Calling}, Unknown));
            SetDeliveries(t1, ExpiredPage(t0, now, selected), {Pending, RetryWait}, Expired) ==
                Maintained(t0, now, selected).deliveries
  {
  }

  lemma SameCarriers(a: map<string, Message>, b: map<string, Message>, page: set<string>)
    requires a.Keys == b.Keys && forall id :: id in a ==> a[id].delivery == b[id].delivery
    ensures forall d :: Carries(a, page, d) <==> Carries(b, page, d)
  {
  }

  // ---------------------------------------------------------------- closing, deferring, receipts

  /** Closes a message that was read as `seen`. */
  function Closed(t: Tables, id: string, seen: Message, to: Status): Tables {
    var t1 := MoveDelivery(t, seen.delivery, {Pending, RetryWait}, to);
    if Holds(t1, id, seen.status, seen.lease)
    then t1.(messages := t1.messages[id := t1.messages[id].(status := to)]) else t1
  }

  /** What closing does to each row: the message only as it was read, the delivery only while it waits. */
  lemma ClosingMeans(t: Tables, id: string, seen: Message, to: Status)
    ensures var t' := Closed(t, id, seen, to);
            && t'.send == t.send && t'.messages.Keys == t.messages.Keys && t'.deliveries.Keys == t.deliveries.Keys
            && (forall i :: i in t.messages ==>
                  var m := t.messages[i];
                  t'.messages[i] ==
                    if i == id && m.status == seen.status && m.lease == seen.lease then m.(status := to) else m)
            && (forall d :: d in t.deliveries ==>
                  var s := t.deliveries[d];
                  t'.deliveries[d] == if seen.delivery == Some(d) && s in {Pending, RetryWait} then to else s)
  {
  }

  method CloseMessage(db: Cas.Database<Tables>, id: string, seen: Message, to: Status)
    modifies db
    ensures db.state == Closed(old(db.state), id, seen, to)
  {
    db.state := MoveDelivery(db.state, seen.delivery, {Pending, RetryWait}, to);
    if Holds(db.state, id, seen.status, seen.lease) {
      db.state := db.state.(messages := db.state.messages[id := db.state.messages[id].(status := to)]);
    }
  }

  function Deferred(t: Tables, id: string, seen: Message, until: int): Tables {
    if Holds(t, id, seen.status, seen.lease)
    then t.(messages := t.messages[id := t.messages[id].(nextAttempt := Some(until))]) else t
  }

  /** A client receipt confirms a notification whose call timed out. */
  function Confirmed(t: Tables, id: string): Tables {
    if id in t.messages && t.messages[id].purpose == Business && t.messages[id].status == Unknown
    then MoveDelivery(t.(messages := t.messages[id := t.messages[id].(status := Accepted)]),
                      t.messages[id].delivery, {Unknown}, Accepted)
    else t
  }

  /** `known` says whether the token belongs to the message's binding; without it nothing is touched. */
  method ProcessedReceipt(db: Cas.Database<Tables>, id: string, known: bool) returns (found: bool)
    modifies db
    ensures found <==> known && id in old(db.state).messages
    ensures db.state == if found then Confirmed(old(db.state), id) else old(db.state)
    ensures found && old(db.state).messages[id].purpose == Business && old(db.state).messages[id].status == Unknown ==>
              var t := old(db.state);
              && db.state.messages == t.messages[id := t.messages[id].(status := Accepted)]
              && db.state.deliveries.Keys == t.deliveries.Keys
              && forall d :: d in t.deliveries ==>
                   db.state.deliveries[d] ==
                     if t.messages[id].delivery == Some(d) && t.deliveries[d] == Unknown then Accepted
                     else t.deliveries[d]
    ensures forall m :: m in old(db.state).messages
                        && (m != id || !found || old(db.state).messages[m].status != Unknown) ==>
              m in db.state.messages && db.state.messages[m] == old(db.state).messages[m]
  {
    if !known { return false; }
    if id !in db.state.messages { return false; }
    var row := db.state.messages[id];
    if row.purpose != Business { return true; }
    if row.status == Unknown {
      db.state := db.state.(messages := db.state.messages[id := row.(status := Accepted)]);
      db.state := MoveDelivery(db.state, row.delivery, {Unknown}, Accepted);
    }
    return true;
  }

  /** A schedule change supersedes waiting deliveries, whatever their channel. */
  function WithSuperseded(t: Tables, deliveries: set<string>): Tables {
    t.(deliveries := map d | d in t.deliveries ::
      if d in deliveries && Waiting(t.deliveries[d]) then Superseded else t.deliveries[d])
  }

  /** One expanded target: a delivery and its message, inserted by the same commit. */
  function WithPair(t: Tables, id: string, delivery: string, critical: bool, expiresAt: int): Tables {
    if id in t.messages || delivery in t.deliveries then t
    else t.(messages := t.messages[id := Message(Business, critical, Some(delivery),
          Pending, 0, 0, None, None, expiresAt)],
            deliveries := t.deliveries[delivery := Pending])
  }

  /** An expanded target is a pending notification that has not been called yet, with the lifetime and urgency of its
      occurrence, next to a pending delivery; a target that exists already is left alone. */
  lemma ExpansionMeans(t: Tables, id: string, delivery: string, critical: bool, expiresAt: int)
    ensures var t' := WithPair(t, id, delivery, critical, expiresAt);
            if id in t.messages || delivery in t.deliveries then t' == t
            else
              (&& t'.deliveries == t.deliveries[delivery := Pending] && t'.send == t.send
               && t'.messages.Keys == t.messages.Keys + {id}
               && (forall i :: i in t.messages ==> t'.messages[i] == t.messages[i])
               && t'.messages[id].status == Pending && t'.messages[id].purpose == Business
               && t'.messages[id].delivery == Some(delivery) && t'.messages[id].critical == critical
               && t'.messages[id].expiresAt == expiresAt && t'.messages[id].attempts == t'.messages[id].lease == 0
               && t'.messages[id].nextAttempt.None?)
  {
  }

  // ---------------------------------------------------------------- claiming

  function EnsureDay(day: int): Tables -> Cas.Exec<Tables> {
    (t: Tables) => if day in t.send then Cas.NoRows else Cas.Rows(t.(send := t.send[day := 0]), 1, 0)
  }

  predicate CanClaim(t: Tables, id: string, seen: Message, day: int, eligible: bool) {
    && Holds(t, id, seen.status, seen.lease)
    && SentOn(t, day) < SendDayLimit(seen.critical)
    && eligible
    && seen.delivery.Some? && seen.delivery.value in t.deliveries && Waiting(t.deliveries[seen.delivery.value])
  }

  function ClaimedRow(m: Message, lease: nat, now: int): Message {
    m.(status := Calling, attempts := m.attempts + 1, lease := lease, leaseExpires := Some(now + CALL_LEASE_MS),
       nextAttempt := None)
  }

  function TakeMessage(id: string, seen: Message, now: int, day: int, eligible: bool): Tables -> Cas.Exec<Tables> {
    (t: Tables) =>
      if CanClaim(t, id, seen, day, eligible)
      then Cas.Rows(t.(messages := t.messages[id := ClaimedRow(t.messages[id], seen.lease + 1, now)]), 1, 0)
      else Cas.NoRows
  }

  function CountSend(day: int): Tables -> Cas.Exec<Tables> {
    (t: Tables) =>
      if day in t.send then Cas.Rows(t.(send := t.send[day := t.send[day] + 1]), 1, 0) else Cas.NoRows
  }

  function CallDelivery(delivery: Option<string>): Tables -> Cas.Exec<Tables> {
    (t: Tables) =>
      if delivery.Some? && delivery.value in t.deliveries
      then Cas.Rows(t.(deliveries := t.deliveries[delivery.value := Calling]), 1, 0) else Cas.NoRows
  }

  /** `eligible` stands for the binding being active inside its lease and both controls being open. */
  function ClaimPlan(id: string, seen: Message, now: int, day: int, eligible: bool): Cas.Plan<Tables> {
    Cas.Plan([EnsureDay(day)], Cas.UpdateVerb, TakeMessage(id, seen, now, day, eligible),
             [Cas.Update(3, CountSend(day), false), Cas.Update(2, CallDelivery(seen.delivery), false)])
  }

  method ClaimMessage(db: Cas.Database<Tables>, id: string, seen: Message, now: int, day: int, eligible: bool)
    returns (outcome: Cas.Outcome)
    modifies db
    ensures outcome == Cas.Committed <==> CanClaim(old(db.state), id, seen, day, eligible)
    ensures outcome == Cas.Committed ==> db.state == ClaimedTables(old(db.state), id, seen, now, day)
    ensures outcome != Cas.Committed ==> outcome == Cas.ConditionMissed && db.state == Counted(old(db.state), day)
  {
    ClaimDecides(db.state, id, seen, now, day, eligible);
    outcome := db.ConditionalCommit(ClaimPlan(id, seen, now, day, eligible));
  }

  function Counted(t: Tables, day: int): Tables { t.(send := t.send[day := SentOn(t, day)]) }

  function ClaimedTables(t: Tables, id: string, seen: Message, now: int, day: int): Tables
    requires id in t.messages && seen.delivery.Some?
  {
    Tables(t.messages[id := ClaimedRow(t.messages[id], seen.lease + 1, now)],
           t.deliveries[seen.delivery.value := Calling],
           t.send[day := SentOn(t, day) + 1])
  }

  /** Which claims succeed, and the rows they leave. */
  lemma ClaimMeans(t: Tables, id: string, seen: Message, now: int, day: int, eligible: bool)
    ensures CanClaim(t, id, seen, day, eligible) <==>
              && id in t.messages && t.messages[id].status == seen.status && t.messages[id].lease == seen.lease
              && SentOn(t, day) < (if seen.critical then 5000 else 4500) && eligible
              && seen.delivery.Some? && seen.delivery.value in t.deliveries
              && t.deliveries[seen.delivery.value] in {Pending, RetryWait}
    ensures CanClaim(t, id, seen, day, eligible) ==>
              var t' := ClaimedTables(t, id, seen, now, day);
              && t'.messages == t.messages[id := t.messages[id].(
                   status := Calling, attempts := t.messages[id].attempts + 1, lease := seen.lease + 1,
                   leaseExpires := Some(now + 120_000), nextAttempt := None)]
              && t'.deliveries == t.deliveries[seen.delivery.value := Calling]
              && t'.send == t.send[day := SentOn(t, day) + 1]
  {
  }

  /** The message, its delivery and the day's counter move together or not at all. */
  lemma ClaimDecides(t: Tables, id: string, seen: Message, now: int, day: int, eligible: bool)
    ensures Cas.Commit(ClaimPlan(id, seen, now, day, eligible), t) ==
            if CanClaim(t, id, seen, day, eligible)
            then (Cas.Committed, ClaimedTables(t, id, seen, now, day))
            else (Cas.ConditionMissed, Counted(t, day))
  {
    var plan := ClaimPlan(id, seen, now, day, eligible);
    var counted := Counted(t, day);
    assert day in t.send ==> counted.send == t.send;
    assert plan.preamble[1..] == [];
    assert Cas.RunPreamble(plan.preamble, t) == Cas.Done(counted, []);
    if CanClaim(t, id, seen, day, eligible) {
      var g := plan.guard(counted);
      ClaimEffects(g.state, seen.delivery, day);
      assert g.state.send[day := SentOn(t, day) + 1] == t.send[day := SentOn(t, day) + 1];
    } else {
      Cas.GuardMissIsNoOp(plan, t);
    }
  }

  lemma ClaimEffects(t: Tables, delivery: Option<string>, day: int)
    requires day in t.send && delivery.Some? && delivery.value in t.deliveries
    ensures Cas.RunChain([Cas.Update(3, CountSend(day), false), Cas.Update(2, CallDelivery(delivery), false)], t, 1) ==
            Cas.Done(t.(send := t.send[day := t.send[day] + 1],
                        deliveries := t.deliveries[delivery.value := Calling]), [1, 1])
  {
    var count, call := Cas.Update(3, CountSend(day), false), Cas.Update(2, CallDelivery(delivery), false);
    Cas.OneRowThen(count, [call], t);
    Cas.OneEffect(call, count.Chained(t, 1).state);
    assert [count] + [call] == [count, call];
  }

  // ---------------------------------------------------------------- activation and test sends

  function DirectMessage(purpose: Purpose, expiresAt: int, now: int): Message {
    Message(purpose, false, None, Calling, 1, 1, Some(now + CALL_LEASE_MS), None, expiresAt)
  }

  function InsertMessage(id: string, m: Message): Tables -> Cas.Exec<Tables> {
    (t: Tables) =>
      if id in t.messages then Cas.SqlError else Cas.Rows(t.(messages := t.messages[id := m]), 1, 0)
  }

  /** `ready` stands for what the guard asks of the binding row, the session and the other counters. */
  function ReserveDay(day: int, ready: bool): Tables -> Cas.Exec<Tables> {
    (t: Tables) => if ready && SentOn(t, day) < SendDayLimit(false) then Cas.Rows(t, 1, 0) else Cas.NoRows
  }

  function DirectPlan(id: string, purpose: Purpose, day: int, ready: bool, expiresAt: int, now: int): Cas.Plan<Tables> {
    Cas.Plan([EnsureDay(day)], Cas.UpdateVerb, ReserveDay(day, ready),
             [Cas.Update(3, CountSend(day), false),
                 Cas.Insert(1, InsertMessage(id, DirectMessage(purpose, expiresAt, now)))])
  }

  method StartDirect(
      db: Cas.Database<Tables>, id: string, purpose: Purpose, day: int, ready: bool, expiresAt: int, now: int)
    returns (outcome: Cas.Outcome)
    modifies db
    ensures outcome == Cas.ConditionMissed <==> !(ready && SentOn(old(db.state), day) < 4500)
    ensures outcome == Cas.Rejected <==>
              ready && SentOn(old(db.state), day) < 4500 && id in old(db.state).messages
    ensures outcome == Cas.Committed ==>
              var t := old(db.state);
              && outcome == Cas.Committed && db.state.deliveries == t.deliveries
              && db.state.messages == t.messages[id :=
                   Message(purpose, false, None, Calling, 1, 1, Some(now + 120_000), None, expiresAt)]
              && db.state.send == t.send[day := SentOn(t, day) + 1]
    ensures outcome != Cas.Committed ==>
              db.state == if outcome == Cas.Rejected then old(db.state) else Counted(old(db.state), day)
  {
    StartDecides(db.state, id, purpose, day, ready, expiresAt, now);
    outcome := db.ConditionalCommit(DirectPlan(id, purpose, day, ready, expiresAt, now));
  }

  predicate CanStart(t: Tables, day: int, ready: bool) { ready && SentOn(t, day) < SendDayLimit(false) }

  function StartedTables(t: Tables, id: string, purpose: Purpose, day: int, expiresAt: int, now: int): Tables {
    t.(messages := t.messages[id := DirectMessage(purpose, expiresAt, now)], send := t.send[day := SentOn(t, day) + 1])
  }

  lemma StartDecides(t: Tables, id: string, purpose: Purpose, day: int, ready: bool, expiresAt: int, now: int)
    ensures Cas.Commit(DirectPlan(id, purpose, day, ready, expiresAt, now), t) ==
            if !CanStart(t, day, ready) then (Cas.ConditionMissed, Counted(t, day))
            else if id in t.messages then (Cas.Rejected, t)
            else (Cas.Committed, StartedTables(t, id, purpose, day, expiresAt, now))
  {
    var plan := DirectPlan(id, purpose, day, ready, expiresAt, now);
    var counted := Counted(t, day);
    assert day in t.send ==> counted.send == t.send;
    assert plan.preamble[1..] == [];
    assert Cas.RunPreamble(plan.preamble, t) == Cas.Done(counted, []);
    if CanStart(t, day, ready) {
      var e := plan.effects[0].Chained(counted, 1);
      var tail := plan.effects[1..];
      var f := tail[0].Chained(e.state, 1);
      assert tail[1..] == [];
      if id !in t.messages {
        assert Cas.RunChain(tail, e.state, 1) == Cas.Done(f.state, [1]);
        assert Cas.RunChain(plan.effects, counted, 1) == Cas.Done(f.state, [1, 1]);
        assert f.state == StartedTables(t, id, purpose, day, expiresAt, now);
      }
    } else {
      Cas.GuardMissIsNoOp(plan, t);
    }
  }

  // ---------------------------------------------------------------- one uninterrupted send

  datatype Review = Eligible | NotEligible(why: Status)

  function ReviewStatus(
      r: Review): Status { if r.NotEligible? && r.why in {Skipped, Superseded, Expired} then r.why else Skipped }

  /** What one due message goes through when nothing happens in between: closed after review, put off or
      closed when the day is used up, left alone when something else changed, or claimed, called and settled. */
  function SentNext(
      t: Tables, id: string, review: Review, eligible: bool, now: int, outcome: Outcome,
      retryAfter: Option<int>): Tables
    requires id in t.messages && t.messages[id].purpose == Business && Waiting(t.messages[id].status)
  {
    var seen, day := t.messages[id], now / DAY_MS;
    if review != Eligible then Closed(t, id, seen, ReviewStatus(review))
    else if CanClaim(t, id, seen, day, eligible) then
      var claimed := ClaimedTables(t, id, seen, now, day);
      var tr := TransitionFor(seen, seen.attempts + 1, outcome, retryAfter, now);
      Landed(claimed, ResultWrite(id, seen.lease + 1, seen.delivery, tr.status, tr.nextAttempt))
    else Missed(t, id, now)
  }

  /** Without a claim: the day is full, and the message waits for the next one or is closed, or nothing happens. */
  function Missed(t: Tables, id: string, now: int): Tables
    requires id in t.messages
  {
    var seen, day := t.messages[id], now / DAY_MS;
    var counted := Counted(t, day);
    if SentOn(t, day) < SendDayLimit(seen.critical) then counted
    else if (day + 1) * DAY_MS < seen.expiresAt then Deferred(counted, id, seen, (day + 1) * DAY_MS)
    else Closed(counted, id, seen, Skipped)
  }

  method SendNextBusinessPush(
      db: Cas.Database<Tables>, id: string, review: Review, eligible: bool, now: int, outcome: Outcome,
          retryAfter: Option<int>)
    requires id in db.state.messages && db.state.messages[id].purpose == Business
        && Waiting(db.state.messages[id].status)
    modifies db
    ensures db.state == SentNext(old(db.state), id, review, eligible, now, outcome, retryAfter)
  {
    var seen, day := db.state.messages[id], now / DAY_MS;
    if review != Eligible {
      CloseMessage(db, id, seen, ReviewStatus(review));
      return;
    }
    var claim := ClaimMessage(db, id, seen, now, day, eligible);
    if claim == Cas.Committed {
      var tr := TransitionFor(seen, seen.attempts + 1, outcome, retryAfter, now);
      WriteBack(db, ResultWrite(id, seen.lease + 1, seen.delivery, tr.status, tr.nextAttempt));
      return;
    }
    var used := SentOn(db.state, day);
    if used < SendDayLimit(seen.critical) { return; }
    if (day + 1) * DAY_MS < seen.expiresAt {
      db.state := Deferred(db.state, id, seen, (day + 1) * DAY_MS);
    } else {
      CloseMessage(db, id, seen, Skipped);
    }
  }

  /** An uninterrupted send never leaves a message calling, keeps it and its delivery in step, and counts
      exactly the claim it made. */
  lemma UninterruptedSendSettles(
      t: Tables, id: string, review: Review, eligible: bool, now: int, outcome: Outcome, retryAfter: Option<int>)
    requires id in t.messages && t.messages[id].purpose == Business && Waiting(t.messages[id].status)
    requires t.messages[id].delivery.Some? && t.messages[id].delivery.value in t.deliveries
    requires t.deliveries[t.messages[id].delivery.value] == t.messages[id].status
    ensures var t' := SentNext(t, id, review, eligible, now, outcome, retryAfter);
            var d := t.messages[id].delivery.value;
            var day := now / DAY_MS;
            && id in t'.messages && d in t'.deliveries
            && t'.messages[id].status != Calling
            && t'.deliveries[d] == t'.messages[id].status
            && t'.messages[id].attempts - t.messages[id].attempts == SentOn(t', day) - SentOn(t, day)
            && (t'.messages[id].attempts > t.messages[id].attempts ==> review == Eligible && eligible)
  {
    var seen, day := t.messages[id], now / DAY_MS;
    if review != Eligible {
      ClosedInStep(t, id, ReviewStatus(review));
    } else if CanClaim(t, id, seen, day, eligible) {
      var tr := TransitionFor(seen, seen.attempts + 1, outcome, retryAfter, now);
      assert tr.status != Calling by { RetryOnlyAfterRefusal(seen, seen.attempts + 1, outcome, retryAfter, now); }
      ClaimedAndLanded(t, id, now, day, tr);
    } else {
      MissedSettles(t, id, now);
    }
  }

  /** A missed claim closes the message, puts it off or leaves it, and counts nothing. */
  lemma MissedSettles(t: Tables, id: string, now: int)
    requires id in t.messages && Waiting(t.messages[id].status)
    requires t.messages[id].delivery.Some? && t.messages[id].delivery.value in t.deliveries
    requires t.deliveries[t.messages[id].delivery.value] == t.messages[id].status
    ensures var t' := Missed(t, id, now);
            var d := t.messages[id].delivery.value;
            && id in t'.messages && d in t'.deliveries && t'.messages[id].status != Calling
            && t'.deliveries[d] == t'.messages[id].status && t'.messages[id].attempts == t.messages[id].attempts
            && SentOn(t', now / DAY_MS) == SentOn(t, now / DAY_MS)
  {
    ClosedInStep(Counted(t, now / DAY_MS), id, Skipped);
  }

  lemma ClosedInStep(t: Tables, id: string, to: Status)
    requires id in t.messages && Waiting(t.messages[id].status) && t.messages[id].delivery.Some?
    requires t.messages[id].delivery.value in t.deliveries
        && t.deliveries[t.messages[id].delivery.value] == t.messages[id].status
    ensures var seen, t' := t.messages[id], Closed(t, id, t.messages[id], to);
            t' == t.(messages := t.messages[id := seen.(status := to)],
                deliveries := t.deliveries[seen.delivery.value := to])
  {
  }

  lemma ClaimedAndLanded(t: Tables, id: string, now: int, day: int, tr: Transition)
    requires id in t.messages && t.messages[id].delivery.Some? && t.messages[id].delivery.value in t.deliveries
    ensures var seen := t.messages[id];
            var w := ResultWrite(id, seen.lease + 1, seen.delivery, tr.status, tr.nextAttempt);
            var t' := Landed(ClaimedTables(t, id, seen, now, day), w);
            && id in t'.messages && t'.messages[id].status == tr.status && t'.messages[id].attempts == seen.attempts + 1
            && seen.delivery.value in t'.deliveries && t'.deliveries[seen.delivery.value] == tr.status
            && t'.send == t.send[day := SentOn(t, day) + 1]
  {
  }

  /** The row a call leaves: called once, and its outcome decides. */
  function RowAfterCall(seen: Message, outcome: Outcome, now: int, delay: int): Message {
    var called := seen.(attempts := seen.attempts + 1, lease := seen.lease + 1, leaseExpires := None,
                        nextAttempt := None);
    if outcome == ProviderAccepted then called.(status := Accepted)
    else if outcome == ResultUnknown then called.(status := Unknown)
    else if outcome == Gone || outcome == Rejected then called.(status := Failed)
    else if now + delay < seen.expiresAt then called.(status := RetryWait, nextAttempt := Some(now + delay))
    else called.(status := Expired)
  }

  predicate DayIsFull(t: Tables, seen: Message, now: int) {
    SentOn(t, now / DAY_MS) >= (if seen.critical then 5000 else 4500)
  }

  /** The row without a call: on a full day it waits for midnight, or is skipped when that is too late; and when the
      binding or a switch is gone it stays as it is. */
  function RowUncalled(t: Tables, seen: Message, now: int): Message {
    var midnight := (now / DAY_MS + 1) * DAY_MS;
    if !DayIsFull(t, seen, now) then seen
    else if midnight < seen.expiresAt then seen.(nextAttempt := Some(midnight))
    else seen.(status := Skipped)
  }

  /** The row an uninterrupted send leaves.  A message that does not pass its review is closed with the reason. */
  function RowAfterSend(
      t: Tables, seen: Message, review: Review, eligible: bool, now: int, outcome: Outcome, delay: int): Message
  {
    if review == NotEligible(Superseded) then seen.(status := Superseded)
    else if review == NotEligible(Expired) then seen.(status := Expired)
    else if review.NotEligible? then seen.(status := Skipped)
    else if eligible && !DayIsFull(t, seen, now) then RowAfterCall(seen, outcome, now, delay)
    else RowUncalled(t, seen, now)
  }

  /** An uninterrupted send leaves exactly that row and touches no other message. */
  lemma SendIsExact(
      t: Tables, id: string, review: Review, eligible: bool, now: int, outcome: Outcome, retryAfter: Option<int>,
      delay: int)
    requires id in t.messages && t.messages[id].purpose == Business && Waiting(t.messages[id].status)
    requires t.messages[id].delivery.Some? && t.messages[id].delivery.value in t.deliveries
    requires t.deliveries[t.messages[id].delivery.value] == t.messages[id].status
    requires IsRetryDelay(delay, t.messages[id].attempts + 1, retryAfter)
    ensures SentNext(t, id, review, eligible, now, outcome, retryAfter).messages ==
              t.messages[id := RowAfterSend(t, t.messages[id], review, eligible, now, outcome, delay)]
  {
    var seen, day := t.messages[id], now / DAY_MS;
    assert CanClaim(t, id, seen, day, eligible) <==> eligible && !DayIsFull(t, seen, now);
    if review != Eligible {
      ReviewedRow(t, id, review);
    } else if CanClaim(t, id, seen, day, eligible) {
      CalledRow(t, id, now, outcome, retryAfter, delay);
    } else {
      MissedRow(t, id, now);
    }
  }

  lemma ReviewedRow(t: Tables, id: string, review: Review)
    requires id in t.messages && Waiting(t.messages[id].status) && t.messages[id].delivery.Some?
    requires t.messages[id].delivery.value in t.deliveries
    requires t.deliveries[t.messages[id].delivery.value] == t.messages[id].status
    ensures Closed(t, id, t.messages[id], ReviewStatus(review)).messages ==
              t.messages[id := t.messages[id].(status := ReviewStatus(review))]
  {
    ClosedInStep(t, id, ReviewStatus(review));
  }

  lemma CalledRow(t: Tables, id: string, now: int, outcome: Outcome, retryAfter: Option<int>, delay: int)
    requires id in t.messages && t.messages[id].purpose == Business && t.messages[id].delivery.Some?
    requires IsRetryDelay(delay, t.messages[id].attempts + 1, retryAfter)
    ensures var seen := t.messages[id];
            var tr := TransitionFor(seen, seen.attempts + 1, outcome, retryAfter, now);
            var w := ResultWrite(id, seen.lease + 1, seen.delivery, tr.status, tr.nextAttempt);
            Landed(ClaimedTables(t, id, seen, now, now / DAY_MS), w).messages ==
              t.messages[id := RowAfterCall(seen, outcome, now, delay)]
  {
    var seen := t.messages[id];
    RetryIsTimed(seen, seen.attempts + 1, outcome, retryAfter, now, delay);
    ClaimedAndLandedRows(
      t, id, now, now / DAY_MS, TransitionFor(seen, seen.attempts + 1, outcome, retryAfter, now));
  }

  lemma ClaimedAndLandedRows(t: Tables, id: string, now: int, day: int, tr: Transition)
    requires id in t.messages && t.messages[id].delivery.Some?
    ensures var seen := t.messages[id];
            var w := ResultWrite(id, seen.lease + 1, seen.delivery, tr.status, tr.nextAttempt);
            Landed(ClaimedTables(t, id, seen, now, day), w).messages ==
              t.messages[id := seen.(status := tr.status, attempts := seen.attempts + 1, lease := seen.lease + 1,
                                     leaseExpires := None, nextAttempt := tr.nextAttempt)]
  {
  }

  lemma MissedRow(t: Tables, id: string, now: int)
    requires id in t.messages && Waiting(t.messages[id].status) && t.messages[id].delivery.Some?
    requires t.messages[id].delivery.value in t.deliveries
    requires t.deliveries[t.messages[id].delivery.value] == t.messages[id].status
    ensures Missed(t, id, now).messages == t.messages[id := RowUncalled(t, t.messages[id], now)]
  {
    ClosedInStep(Counted(t, now / DAY_MS), id, Skipped);
    assert t.messages[id := t.messages[id]] == t.messages;
  }

  /** A claim whose call never reports back is closed as unknown, message and delivery, by the first maintenance
      that selects it two minutes after the claim or later, and is left alone by every earlier one. */
  lemma LostCallBecomesUnknown(t: Tables, id: string, now: int, day: int, later: int, selected: set<string>)
    requires id in t.messages && t.messages[id].delivery.Some? && id in selected
    ensures var t' := Maintained(ClaimedTables(t, id, t.messages[id], now, day), later, selected);
            && id in t'.messages && t.messages[id].delivery.value in t'.deliveries
            && t'.messages[id].status == (if later >= now + 120_000 then Unknown else Calling)
            && (later >= now + 120_000 ==> t'.deliveries[t.messages[id].delivery.value] == Unknown)
  {
    var claimed := ClaimedTables(t, id, t.messages[id], now, day);
    assert claimed.messages[id].leaseExpires == Some(now + CALL_LEASE_MS);
    if later >= now + CALL_LEASE_MS {
      assert id in StalePage(claimed, later, selected);
      assert Carries(claimed.messages, StalePage(claimed, later, selected), t.messages[id].delivery.value);
    }
  }

  method SupersedeDeliveries(db: Cas.Database<Tables>, deliveries: set<string>)
    modifies db
    ensures db.state.messages == old(db.state).messages && db.state.send == old(db.state).send
    ensures db.state.deliveries.Keys == old(db.state).deliveries.Keys
    ensures forall d :: d in db.state.deliveries ==>
              db.state.deliveries[d] ==
                if d in deliveries && Waiting(old(db.state).deliveries[d]) then Superseded
                else old(db.state).deliveries[d]
  {
    db.state := WithSuperseded(db.state, deliveries);
  }
}
