/** Push delivery over whole runs: executor passes are serialized, result writes land arbitrarily
    late or never, and receipts, schedule changes and user-triggered sends happen in between. */
module PushDelivery {
  import opened Wrappers
  import opened PushTables
  import Cas

  /** One claim of one message. */
  datatype Ticket = Ticket(id: string, lease: nat)

  datatype Call =
    | NotYet
    | NotSent               // preparing the request failed, nothing left the server
    | Made(outcome: Outcome)

  datatype Flight = Flight(call: Call, caught: bool)

  datatype Claim = Claim(ticket: Ticket, day: int, critical: bool)

  /** The message the current pass has read. */
  datatype Candidate = Candidate(id: string, seen: Message)

  /** The tables, what the executors hold in memory, writes not yet landed, and the history of claims and requests. */
  datatype World = World(
    t: Tables, pass: Option<Candidate>, flights: map<Ticket, Flight>, writes: set<Write>,
    claims: seq<Claim>, requests: seq<Ticket>)

  datatype Step =
    | Expand(id: string, delivery: string, critical: bool, expiresAt: int)
    | Direct(id: string, purpose: Purpose, day: int, ready: bool, expiresAt: int, now: int)
    | Maintain(now: int, selected: set<string>)
    | Select(id: string, now: int)
    | Close(review: Status)
    | TryClaim(now: int, day: int, eligible: bool)
    | Defer(until: int)
    | Abandon
    | Send(ticket: Ticket, outcome: Outcome, retryAfter: Option<int>, now: int)
    | FailToSend(ticket: Ticket, now: int)
    | Catch(ticket: Ticket)
    | Land(write: Write)
    | Receipt(id: string)
    | Supersede(deliveries: set<string>)

  const EMPTY_WORLD: World := World(Tables(map[], map[], map[]), None, map[], {}, [], [])

  // ---------------------------------------------------------------- steps

  predicate Due(t: Tables, id: string, now: int) {
    && id in t.messages && t.messages[id].purpose == Business && Waiting(t.messages[id].status)
    && (t.messages[id].nextAttempt.Some? ==> t.messages[id].nextAttempt.value <= now)
    && t.messages[id].expiresAt > now
  }

  predicate CanCall(w: World, ticket: Ticket) {
    ticket in w.flights && w.flights[ticket] == Flight(NotYet, false) && ticket.id in w.t.messages
  }

  /** Which steps can happen.  The DeliveryDO runs one pass at a time, maintenance first; a deferred message waits
      for a midnight after the moment it was due. */
  predicate Enabled(w: World, s: Step) {
    match s
    case Direct(_, purpose, _, _, _, _) => purpose != Business
    case Maintain(_, _) => w.pass.None?
    case Select(id, now) => w.pass.None? && Due(w.t, id, now)
    case Close(review) => w.pass.Some? && review in {Skipped, Superseded, Expired}
    case TryClaim(_, _, _) => w.pass.Some?
    case Defer(until) =>
      w.pass.Some? && (w.pass.value.seen.nextAttempt.Some? ==> w.pass.value.seen.nextAttempt.value <= until)
    case Send(ticket, _, _, _) => CanCall(w, ticket)
    case FailToSend(ticket, _) => CanCall(w, ticket)
    case Catch(ticket) =>
      ticket in w.flights && !w.flights[ticket].caught
      && ticket.id in w.t.messages && w.t.messages[ticket.id].purpose == Business
    case Land(write) => write in w.writes
    case _ => true
  }

  /** One call of sendPushMessage up to issuing its write-back. */
  function Called(w: World, ticket: Ticket, call: Call, outcome: Outcome, retryAfter: Option<int>, now: int): World
    requires ticket.id in w.t.messages
  {
    var m := w.t.messages[ticket.id];
    var tr := TransitionFor(m, ticket.lease, outcome, retryAfter, now);
    w.(flights := w.flights[ticket := Flight(call, false)],
       writes := w.writes + {ResultWrite(ticket.id, ticket.lease, m.delivery, tr.status, tr.nextAttempt)})
  }

  /** The commit that reserves and inserts an activation or test. */
  function Started(
      w: World, id: string, purpose: Purpose, day: int, ready: bool, expiresAt: int, now: int): World
  {
    if !CanStart(w.t, day, ready) then w.(t := Counted(w.t, day))
    else if id in w.t.messages then w
    else w.(t := StartedTables(w.t, id, purpose, day, expiresAt, now),
            flights := w.flights[Ticket(id, 1) := Flight(NotYet, false)],
            claims := w.claims + [Claim(Ticket(id, 1), day, false)])
  }

  /** The commit that claims the message the pass has read. */
  function Tried(w: World, c: Candidate, now: int, day: int, eligible: bool): World {
    if !CanClaim(w.t, c.id, c.seen, day, eligible) then w.(t := Counted(w.t, day))
    else
      var ticket := Ticket(c.id, c.seen.lease + 1);
      w.(t := ClaimedTables(w.t, c.id, c.seen, now, day), pass := None,
         flights := w.flights[ticket := Flight(NotYet, false)],
         claims := w.claims + [Claim(ticket, day, c.seen.critical)])
  }

  function Apply(w: World, s: Step): World
    requires Enabled(w, s)
  {
    match s
    case Expand(id, delivery, critical, expiresAt) => w.(t := WithPair(w.t, id, delivery, critical, expiresAt))
    case Direct(id, purpose, day, ready, expiresAt, now) =>
      Started(w, id, purpose, day, ready, expiresAt, now)
    case Maintain(now, selected) => w.(t := Maintained(w.t, now, selected))
    case Select(id, _) => w.(pass := Some(Candidate(id, w.t.messages[id])))
    case Close(review) => w.(t := Closed(w.t, w.pass.value.id, w.pass.value.seen, review), pass := None)
    case TryClaim(now, day, eligible) => Tried(w, w.pass.value, now, day, eligible)
    case Defer(until) => w.(t := Deferred(w.t, w.pass.value.id, w.pass.value.seen, until), pass := None)
    case Abandon => w.(pass := None)
    case Send(ticket, outcome, retryAfter, now) =>
      Called(w, ticket, Made(outcome), outcome, retryAfter, now).(requests := w.requests + [ticket])
    case FailToSend(ticket, now) => Called(w, ticket, NotSent, Rejected, None, now)
    case Catch(ticket) =>
      w.(flights := w.flights[ticket := w.flights[ticket].(caught := true)],
         writes := w.writes + {FailureWrite(ticket.id, ticket.lease, w.t.messages[ticket.id].delivery)})
    case Land(write) => w.(t := Landed(w.t, write), writes := w.writes - {write})
    case Receipt(id) => w.(t := Confirmed(w.t, id))
    case Supersede(deliveries) => w.(t := WithSuperseded(w.t, deliveries))
  }

  /** The states a list of steps passes through; a list that does something impossible has no run. */
  ghost predicate ValidRun(h: seq<World>, steps: seq<Step>) {
    && |h| == |steps| + 1 && h[0] == EMPTY_WORLD
    && forall i :: 0 <= i < |steps| ==> Enabled(h[i], steps[i]) && h[i+1] == Apply(h[i], steps[i])
  }

  // ---------------------------------------------------------------- the invariant of every run

  predicate RowOk(t: Tables, m: Message) {
    && (m.purpose == Business <==> m.delivery.Some?)
    && (m.delivery.Some? ==> m.delivery.value in t.deliveries)
    && (Waiting(m.status) ==> m.purpose == Business)
    && m.attempts == m.lease
    && (m.status == Pending ==> m.lease == 0)
    && (m.status in {Calling, RetryWait} ==> m.lease > 0)
  }

  ghost predicate RowsOk(t: Tables) {
    && (forall id :: id in t.messages ==> RowOk(t, t.messages[id]))
    && (forall a, b :: a in t.messages && b in t.messages && a != b && t.messages[a].delivery.Some? ==>
          t.messages[a].delivery != t.messages[b].delivery)
  }

  predicate PassOk(w: World) {
    w.pass.Some? ==>
      var c := w.pass.value;
      && Holds(w.t, c.id, c.seen.status, c.seen.lease) && Waiting(c.seen.status)
      && w.t.messages[c.id].delivery == c.seen.delivery && w.t.messages[c.id].critical == c.seen.critical
  }

  /** The claim behind a ticket ended with the push service refusing for now, and its result has been written. */
  ghost predicate EndedRefused(w: World, ticket: Ticket) {
    && ticket in w.flights && w.flights[ticket].call.Made? && Refused(w.flights[ticket].call.outcome)
    && forall x :: x in w.writes && x.ResultWrite? ==> Ticket(x.id, x.lease) != ticket
  }

  ghost predicate FlightsOk(w: World, id: string)
    requires id in w.t.messages
  {
    var m := w.t.messages[id];
    && (forall l: nat :: 1 <= l <= m.lease <==> Ticket(id, l) in w.flights)
    && (forall l: nat :: 1 <= l < m.lease ==> EndedRefused(w, Ticket(id, l)))
    && (m.status == RetryWait ==> EndedRefused(w, Ticket(id, m.lease)))
  }

  ghost predicate WriteOk(w: World, x: Write) {
    && x.id in w.t.messages && Ticket(x.id, x.lease) in w.flights
    && x.delivery == w.t.messages[x.id].delivery
    && (x.ResultWrite? ==>
          var call := w.flights[Ticket(x.id, x.lease)].call;
          && call != NotYet
          && x.status in {Accepted, RetryWait, Unknown, Failed, Expired}
          && (x.status == RetryWait ==> call.Made? && Refused(call.outcome) && w.t.messages[x.id].purpose == Business))
    && (x.FailureWrite? ==> w.t.messages[x.id].purpose == Business)
  }

  predicate SameClaim(x: Write, y: Write) {
    x.ResultWrite? && y.ResultWrite? && x.id == y.id && x.lease == y.lease
  }

  ghost predicate WritesOk(w: World) {
    && (forall x :: x in w.writes ==> WriteOk(w, x))
    && (forall x, y :: x in w.writes && y in w.writes && SameClaim(x, y) ==> x == y)
  }

  ghost predicate Inv(w: World) {
    && RowsOk(w.t) && PassOk(w) && WritesOk(w)
    && (forall id :: id in w.t.messages ==> FlightsOk(w, id))
    && (forall k :: k in w.flights ==> k.id in w.t.messages)
  }

  /** Message rows keep their identity, and the status graph has no other edges. */
  predicate Allowed(a: Status, b: Status) {
    || a == b
    || (Waiting(a) && b in {Calling, Expired, Skipped, Superseded})
    || (a == Calling && b in {Accepted, RetryWait, Unknown, Failed, Expired})
    || (a == Unknown && b == Accepted)
  }

  ghost predicate Follows(a: Tables, b: Tables) {
    && (forall id :: id in a.messages ==>
          && id in b.messages && Allowed(a.messages[id].status, b.messages[id].status)
          && b.messages[id].delivery == a.messages[id].delivery
          && b.messages[id].purpose == a.messages[id].purpose && b.messages[id].critical == a.messages[id].critical
          && a.messages[id].lease <= b.messages[id].lease)
    && (forall d :: d in a.deliveries ==> d in b.deliveries)
  }

  // ---------------------------------------------------------------- what every step keeps

  /** Nothing a flight depends on moved. */
  lemma FlightsFrame(w: World, w': World, id: string)
    requires id in w.t.messages && id in w'.t.messages && FlightsOk(w, id)
    requires w'.flights == w.flights && w'.writes <= w.writes
    requires w'.t.messages[id].lease == w.t.messages[id].lease
    requires w'.t.messages[id].status == RetryWait ==> w.t.messages[id].status == RetryWait
    ensures FlightsOk(w', id)
  {
    var m := w'.t.messages[id];
    assert forall k: Ticket :: EndedRefused(w, k) ==> EndedRefused(w', k);
  }

  lemma WritesFrame(w: World, w': World)
    requires WritesOk(w) && w'.flights == w.flights && w'.writes <= w.writes
    requires Follows(w.t, w'.t)
    ensures WritesOk(w')
  {
    forall x | x in w'.writes ensures WriteOk(w', x) { assert WriteOk(w, x); }
  }

  ghost predicate NoNewRetries(a: Tables, b: Tables) {
    && b.messages.Keys == a.messages.Keys
    && forall id :: id in a.messages ==>
         && b.messages[id].lease == a.messages[id].lease
         && (b.messages[id].status == RetryWait ==> a.messages[id].status == RetryWait)
  }

  /** One row moving along the status graph without a new claim. */
  predicate Moved(m: Message, m': Message) {
    && m'.purpose == m.purpose && m'.critical == m.critical && m'.delivery == m.delivery
    && m'.attempts == m.attempts && m'.lease == m.lease
    && Allowed(m.status, m'.status)
    && (m'.status == Calling ==> m.status == Calling)
    && (m'.status == RetryWait ==> m.status == RetryWait || m.purpose == Business)
  }

  ghost predicate TablesMoved(a: Tables, b: Tables) {
    && b.messages.Keys == a.messages.Keys && b.deliveries.Keys == a.deliveries.Keys
    && forall id :: id in a.messages ==> Moved(a.messages[id], b.messages[id])
  }

  lemma MovedKeepsRows(a: Tables, b: Tables)
    requires RowsOk(a) && TablesMoved(a, b)
    ensures RowsOk(b) && Follows(a, b)
  {
    forall id | id in b.messages ensures RowOk(b, b.messages[id]) {
      assert RowOk(a, a.messages[id]) && Moved(a.messages[id], b.messages[id]);
    }
  }

  /** Steps that only move rows. */
  lemma RowsOnly(w: World, w': World)
    requires Inv(w) && w'.flights == w.flights && w'.writes == w.writes
    requires TablesMoved(w.t, w'.t) && NoNewRetries(w.t, w'.t) && PassOk(w')
    ensures Inv(w') && Follows(w.t, w'.t)
  {
    MovedKeepsRows(w.t, w'.t);
    WritesFrame(w, w');
    forall id | id in w'.t.messages ensures FlightsOk(w', id) { FlightsFrame(w, w', id); }
  }

  lemma PairRows(t: Tables, id: string, delivery: string, critical: bool, expiresAt: int)
    requires RowsOk(t)
    ensures RowsOk(WithPair(t, id, delivery, critical, expiresAt))
    ensures Follows(t, WithPair(t, id, delivery, critical, expiresAt))
  {
    var t' := WithPair(t, id, delivery, critical, expiresAt);
    forall i | i in t'.messages ensures RowOk(t', t'.messages[i]) {
      if i in t.messages { assert RowOk(t, t.messages[i]); }
    }
    forall i | i in t.messages && t.messages[i].delivery.Some? ensures t.messages[i].delivery.value in t.deliveries {
      assert RowOk(t, t.messages[i]);
    }
  }

  lemma ExpandKeepsInv(w: World, s: Step)
    requires Inv(w) && Enabled(w, s) && s.Expand?
    ensures Inv(Apply(w, s)) && Follows(w.t, Apply(w, s).t)
  {
    PairRows(w.t, s.id, s.delivery, s.critical, s.expiresAt);
    PairShape(w.t, s.id, s.delivery, s.critical, s.expiresAt);
    NewPending(w, Apply(w, s), s.id);
  }

  lemma PairShape(t: Tables, id: string, delivery: string, critical: bool, expiresAt: int)
    ensures var t' := WithPair(t, id, delivery, critical, expiresAt);
            && t'.messages.Keys <= t.messages.Keys + {id}
            && (forall i :: i in t.messages ==> i in t'.messages && t'.messages[i] == t.messages[i])
            && (id !in t.messages && id in t'.messages ==>
                  t'.messages[id].lease == 0 && t'.messages[id].status == Pending)
  {
  }

  lemma NewPending(w: World, w': World, id: string)
    requires Inv(w) && w' == w.(t := w'.t) && RowsOk(w'.t) && Follows(w.t, w'.t)
    requires w'.t.messages.Keys <= w.t.messages.Keys + {id}
    requires forall i :: i in w.t.messages ==> i in w'.t.messages && w'.t.messages[i] == w.t.messages[i]
    requires id !in w.t.messages && id in w'.t.messages ==>
               w'.t.messages[id].lease == 0 && w'.t.messages[id].status == Pending
    ensures Inv(w')
  {
    WritesFrame(w, w');
    forall i | i in w'.t.messages ensures FlightsOk(w', i) {
      if i in w.t.messages { FlightsFrame(w, w', i); } else { NoFlights(w, w', i); }
    }
  }

  lemma NoFlights(w: World, w': World, id: string)
    requires (forall k :: k in w.flights ==> k.id in w.t.messages) && w'.flights == w.flights
    requires id !in w.t.messages && id in w'.t.messages && w'.t.messages[id].lease == 0
    requires w'.t.messages[id].status == Pending
    ensures FlightsOk(w', id)
  {
  }

  lemma DirectKeepsInv(w: World, s: Step)
    requires Inv(w) && Enabled(w, s) && s.Direct?
    ensures Inv(Apply(w, s)) && Follows(w.t, Apply(w, s).t)
  {
    var w' := Apply(w, s);
    if CanStart(w.t, s.day, s.ready) && s.id !in w.t.messages {
      NewDirect(w, w', s.id, DirectMessage(s.purpose, s.expiresAt, s.now));
    } else {
      RowsOnly(w, w');
    }
  }

  /** Messages other than the one whose flight changed. */
  lemma OtherFlights(w: World, w': World, ticket: Ticket, f: Flight, id: string)
    requires id in w.t.messages && id != ticket.id && FlightsOk(w, id)
    requires id in w'.t.messages && w'.t.messages[id] == w.t.messages[id]
    requires w'.flights == w.flights[ticket := f]
    requires forall x :: x in w'.writes && x.ResultWrite? && x.id != ticket.id ==> x in w.writes
    ensures FlightsOk(w', id)
  {
    forall k: Ticket | k.id == id && EndedRefused(w, k) ensures EndedRefused(w', k) {}
  }

  lemma WritesWithFlight(w: World, w': World, ticket: Ticket)
    requires WritesOk(w) && Follows(w.t, w'.t) && w'.writes == w.writes
    requires ticket !in w.flights && w'.flights == w.flights[ticket := Flight(NotYet, false)]
    ensures WritesOk(w')
  {
    forall x | x in w'.writes ensures WriteOk(w', x) { assert WriteOk(w, x); }
  }

  lemma NewDirect(w: World, w': World, id: string, m: Message)
    requires Inv(w) && id !in w.t.messages && m.purpose != Business && m.delivery.None?
    requires m.status == Calling && m.lease == m.attempts == 1
    requires w'.t.messages == w.t.messages[id := m] && w'.t.deliveries == w.t.deliveries
    requires w'.flights == w.flights[Ticket(id, 1) := Flight(NotYet, false)]
    requires w'.writes == w.writes && w'.pass == w.pass
    ensures Inv(w') && Follows(w.t, w'.t)
  {
    assert Ticket(id, 1) !in w.flights;
    DirectRows(w.t, w'.t, id, m);
    WritesWithFlight(w, w', Ticket(id, 1));
    forall i | i in w'.t.messages ensures FlightsOk(w', i) {
      if i != id { OtherFlights(w, w', Ticket(id, 1), Flight(NotYet, false), i); } else { FirstFlight(w, w', id); }
    }
  }

  lemma DirectRows(t: Tables, t': Tables, id: string, m: Message)
    requires RowsOk(t) && id !in t.messages && m.purpose != Business && m.delivery.None?
    requires m.status == Calling && m.lease == m.attempts == 1
    requires t'.messages == t.messages[id := m] && t'.deliveries == t.deliveries
    ensures RowsOk(t') && Follows(t, t')
  {
    forall i | i in t'.messages ensures RowOk(t', t'.messages[i]) {
      if i != id { assert RowOk(t, t.messages[i]); }
    }
  }

  lemma FirstFlight(w: World, w': World, id: string)
    requires (forall k :: k in w.flights ==> k.id in w.t.messages) && id !in w.t.messages
    requires w'.flights == w.flights[Ticket(id, 1) := Flight(NotYet, false)]
    requires id in w'.t.messages && w'.t.messages[id].lease == 1 && w'.t.messages[id].status == Calling
    ensures FlightsOk(w', id)
  {
  }

  lemma MaintainedMoves(t: Tables, now: int, selected: set<string>)
    ensures TablesMoved(t, Maintained(t, now, selected)) && NoNewRetries(t, Maintained(t, now, selected))
  {
  }

  lemma ClosedMoves(t: Tables, id: string, seen: Message, to: Status)
    requires Waiting(seen.status) && to in {Skipped, Superseded, Expired}
    ensures TablesMoved(t, Closed(t, id, seen, to)) && NoNewRetries(t, Closed(t, id, seen, to))
  {
    assert Closed(t, id, seen, to).deliveries.Keys == t.deliveries.Keys;
  }

  lemma ConfirmedMoves(t: Tables, id: string)
    ensures TablesMoved(t, Confirmed(t, id)) && NoNewRetries(t, Confirmed(t, id))
    ensures forall i :: i in t.messages && t.messages[i].status != Unknown ==>
        Confirmed(t, id).messages[i] == t.messages[i]
  {
    var t' := Confirmed(t, id);
    assert t'.deliveries.Keys == t.deliveries.Keys && t'.messages.Keys == t.messages.Keys;
    forall i | i in t.messages ensures Moved(t.messages[i], t'.messages[i]) {
      if i != id { assert t'.messages[i] == t.messages[i]; }
    }
  }

  lemma LandedMoves(t: Tables, x: Write)
    requires x.id in t.messages
    requires StatusOf(x) in {Accepted, RetryWait, Unknown, Failed, Expired}
    requires StatusOf(x) == RetryWait ==> t.messages[x.id].purpose == Business
    ensures TablesMoved(t, Landed(t, x))
    ensures forall i :: i in t.messages && !(i == x.id && Holds(t, i, Calling, x.lease)) ==>
        Landed(t, x).messages[i] == t.messages[i]
    ensures Holds(t, x.id, Calling, x.lease) ==> Landed(t, x).messages[x.id].status == StatusOf(x)
  {
    assert Landed(t, x).deliveries.Keys == t.deliveries.Keys;
  }

  lemma MaintainKeepsInv(w: World, s: Step)
    requires Inv(w) && Enabled(w, s) && s.Maintain?
    ensures Inv(Apply(w, s)) && Follows(w.t, Apply(w, s).t)
  {
    MaintainedMoves(w.t, s.now, s.selected);
    RowsOnly(w, Apply(w, s));
  }

  lemma PassKeepsInv(w: World, s: Step)
    requires Inv(w) && Enabled(w, s) && (s.Select? || s.Close? || s.Defer? || s.Abandon?)
    ensures Inv(Apply(w, s)) && Follows(w.t, Apply(w, s).t)
  {
    PassMoves(w, s);
    RowsOnly(w, Apply(w, s));
  }

  lemma PassMoves(w: World, s: Step)
    requires Inv(w) && Enabled(w, s) && (s.Select? || s.Close? || s.Defer? || s.Abandon?)
    ensures TablesMoved(w.t, Apply(w, s).t) && NoNewRetries(w.t, Apply(w, s).t)
  {
    if s.Close? { ClosedMoves(w.t, w.pass.value.id, w.pass.value.seen, s.review); }
  }

  lemma OutsideKeepsInv(w: World, s: Step)
    requires Inv(w) && Enabled(w, s) && (s.Receipt? || s.Supersede?)
    ensures Inv(Apply(w, s)) && Follows(w.t, Apply(w, s).t)
  {
    if s.Receipt? { ConfirmedMoves(w.t, s.id); }
    assert TablesMoved(w.t, Apply(w, s).t);
    RowsOnly(w, Apply(w, s));
  }

  lemma ClaimKeepsInv(w: World, s: Step)
    requires Inv(w) && Enabled(w, s) && s.TryClaim?
    ensures Inv(Apply(w, s)) && Follows(w.t, Apply(w, s).t)
  {
    var w', c := Apply(w, s), w.pass.value;
    if CanClaim(w.t, c.id, c.seen, s.day, s.eligible) {
      assert w'.t == ClaimedTables(w.t, c.id, c.seen, s.now, s.day);
      ClaimedRows(w, w', c.id, s.now);
      NewClaim(w, w', c.id);
    } else {
      MissedClaim(w, w', s.day);
    }
  }

  lemma MissedClaim(w: World, w': World, day: int)
    requires Inv(w) && w' == w.(t := Counted(w.t, day))
    ensures Inv(w') && Follows(w.t, w'.t)
  {
    RowsOnly(w, w');
  }

  lemma ClaimedRows(w: World, w': World, id: string, now: int)
    requires Inv(w) && id in w.t.messages && Waiting(w.t.messages[id].status)
    requires w'.t.messages == w.t.messages[id := ClaimedRow(w.t.messages[id], w.t.messages[id].lease + 1, now)]
    requires w'.t.deliveries.Keys == w.t.deliveries.Keys
    ensures RowsOk(w'.t) && Follows(w.t, w'.t)
  {
    forall i | i in w'.t.messages ensures RowOk(w'.t, w'.t.messages[i]) { assert RowOk(w.t, w.t.messages[i]); }
  }

  lemma NewClaim(w: World, w': World, id: string)
    requires Inv(w) && RowsOk(w'.t) && Follows(w.t, w'.t) && w'.pass.None?
    requires id in w.t.messages && Waiting(w.t.messages[id].status) && w'.t.messages.Keys == w.t.messages.Keys
    requires w'.t.messages[id].status == Calling && w'.t.messages[id].lease == w.t.messages[id].lease + 1
    requires forall i :: i in w.t.messages && i != id ==> w'.t.messages[i] == w.t.messages[i]
    requires w'.flights == w.flights[Ticket(id, w.t.messages[id].lease + 1) := Flight(NotYet, false)]
        && w'.writes == w.writes
    ensures Inv(w')
  {
    var ticket := Ticket(id, w.t.messages[id].lease + 1);
    assert FlightsOk(w, id);
    assert ticket !in w.flights;
    WritesWithFlight(w, w', ticket);
    ReclaimedFlights(w, w', id);
    forall i | i in w'.t.messages ensures FlightsOk(w', i) {
      if i != id { OtherFlights(w, w', ticket, Flight(NotYet, false), i); }
    }
    forall k | k in w'.flights ensures k.id in w'.t.messages {}
  }

  lemma ReclaimedFlights(w: World, w': World, id: string)
    requires id in w.t.messages && FlightsOk(w, id) && RowOk(w.t, w.t.messages[id]) && Waiting(w.t.messages[id].status)
    requires id in w'.t.messages && w'.t.messages[id].status == Calling
        && w'.t.messages[id].lease == w.t.messages[id].lease + 1
    requires w'.flights == w.flights[Ticket(id, w.t.messages[id].lease + 1) := Flight(NotYet, false)]
        && w'.writes == w.writes
    ensures FlightsOk(w', id)
  {
    var l0 := w.t.messages[id].lease;
    forall l: nat | 1 <= l <= l0 ensures EndedRefused(w', Ticket(id, l)) {
      assert EndedRefused(w, Ticket(id, l));
    }
  }

  /** Issuing the result of a call, not yet landed. */
  lemma ResultIssued(w: World, w': World, ticket: Ticket, call: Call, x: Write)
    requires Inv(w) && CanCall(w, ticket) && x.ResultWrite? && x.id == ticket.id && x.lease == ticket.lease
    requires x.delivery == w.t.messages[ticket.id].delivery
        && x.status in {Accepted, RetryWait, Unknown, Failed, Expired}
    requires call != NotYet
    requires x.status == RetryWait ==>
        call.Made? && Refused(call.outcome) && w.t.messages[ticket.id].purpose == Business
    requires w'.t == w.t && w'.pass == w.pass
    requires w'.flights == w.flights[ticket := Flight(call, false)] && w'.writes == w.writes + {x}
    ensures Inv(w')
  {
    assert Follows(w.t, w'.t);
    IssuedWrites(w, w', ticket, call, x);
    forall id | id in w'.t.messages ensures FlightsOk(w', id) {
      if id != ticket.id {
        OtherFlights(w, w', ticket, Flight(call, false), id);
      } else {
        OwnFlights(w, w', ticket, call, x);
      }
    }
  }

  /** The ended claims of the message that is being called are those before the call. */
  lemma OwnFlights(w: World, w': World, ticket: Ticket, call: Call, x: Write)
    requires CanCall(w, ticket) && FlightsOk(w, ticket.id)
    requires x.ResultWrite? && x.id == ticket.id && x.lease == ticket.lease && w'.t == w.t
    requires w'.flights == w.flights[ticket := Flight(call, false)] && w'.writes == w.writes + {x}
    ensures FlightsOk(w', ticket.id)
  {
    forall l: nat | EndedRefused(w, Ticket(ticket.id, l)) ensures EndedRefused(w', Ticket(ticket.id, l)) {
      assert Ticket(ticket.id, l) != ticket;
    }
  }

  lemma IssuedWrites(w: World, w': World, ticket: Ticket, call: Call, x: Write)
    requires WritesOk(w) && CanCall(w, ticket) && x.ResultWrite? && x.id == ticket.id && x.lease == ticket.lease
    requires x.delivery == w.t.messages[ticket.id].delivery
        && x.status in {Accepted, RetryWait, Unknown, Failed, Expired}
    requires call != NotYet
    requires x.status == RetryWait ==>
        call.Made? && Refused(call.outcome) && w.t.messages[ticket.id].purpose == Business
    requires w'.t == w.t && w'.flights == w.flights[ticket := Flight(call, false)] && w'.writes == w.writes + {x}
    ensures WritesOk(w')
  {
    forall y | y in w'.writes ensures WriteOk(w', y) {
      if y in w.writes { assert WriteOk(w, y); }
    }
    forall y | y in w.writes && y.ResultWrite? ensures Ticket(y.id, y.lease) != ticket { assert WriteOk(w, y); }
  }

  lemma SendKeepsInv(w: World, s: Step)
    requires Inv(w) && Enabled(w, s) && (s.Send? || s.FailToSend?)
    ensures Inv(Apply(w, s)) && Follows(w.t, Apply(w, s).t)
  {
    var m := w.t.messages[s.ticket.id];
    var call, outcome, retryAfter :=
      if s.Send? then Made(s.outcome) else NotSent,
      if s.Send? then s.outcome else Rejected,
      if s.Send? then s.retryAfter else None;
    RetryOnlyAfterRefusal(m, s.ticket.lease, outcome, retryAfter, s.now);
    var tr := TransitionFor(m, s.ticket.lease, outcome, retryAfter, s.now);
    assert tr.status in {Accepted, RetryWait, Unknown, Failed, Expired};
    ResultIssued(w, Apply(w, s), s.ticket, call,
        ResultWrite(s.ticket.id, s.ticket.lease, m.delivery, tr.status, tr.nextAttempt));
  }

  lemma CatchKeepsInv(w: World, s: Step)
    requires Inv(w) && Enabled(w, s) && s.Catch?
    ensures Inv(Apply(w, s)) && Follows(w.t, Apply(w, s).t)
  {
    var w' := Apply(w, s);
    var x := FailureWrite(s.ticket.id, s.ticket.lease, w.t.messages[s.ticket.id].delivery);
    CaughtWrites(w, w', s.ticket, x);
    forall id | id in w'.t.messages ensures FlightsOk(w', id) { CaughtFlights(w, w', s.ticket, x, id); }
  }

  lemma CaughtWrites(w: World, w': World, ticket: Ticket, x: Write)
    requires WritesOk(w) && ticket in w.flights && ticket.id in w.t.messages
        && w.t.messages[ticket.id].purpose == Business
    requires x == FailureWrite(ticket.id, ticket.lease, w.t.messages[ticket.id].delivery)
    requires w'.t == w.t && w'.flights == w.flights[ticket := w.flights[ticket].(caught := true)]
    requires w'.writes == w.writes + {x}
    ensures WritesOk(w')
  {
    forall y | y in w'.writes ensures WriteOk(w', y) {
      if y in w.writes { assert WriteOk(w, y); }
    }
  }

  lemma CaughtFlights(w: World, w': World, ticket: Ticket, x: Write, id: string)
    requires id in w.t.messages && FlightsOk(w, id) && ticket in w.flights && x.FailureWrite?
    requires w'.t == w.t && w'.flights == w.flights[ticket := w.flights[ticket].(caught := true)]
    requires w'.writes == w.writes + {x}
    ensures FlightsOk(w', id)
  {
    forall k: Ticket | EndedRefused(w, k) ensures EndedRefused(w', k) {}
  }

  lemma LandKeepsInv(w: World, s: Step)
    requires Inv(w) && Enabled(w, s) && s.Land?
    ensures Inv(Apply(w, s)) && Follows(w.t, Apply(w, s).t)
  {
    assert WriteOk(w, s.write);
    LandedInv(w, Apply(w, s), s.write);
  }

  lemma LandedInv(w: World, w': World, x: Write)
    requires Inv(w) && x in w.writes && WriteOk(w, x)
    requires w' == w.(t := Landed(w.t, x), writes := w.writes - {x})
    ensures Inv(w') && Follows(w.t, w'.t)
  {
    LandedRows(w, w', x);
    WritesFrame(w, w');
    LandedFlights(w, w', x);
  }

  lemma LandedRows(w: World, w': World, x: Write)
    requires Inv(w) && x in w.writes && WriteOk(w, x) && w'.t == Landed(w.t, x)
    ensures RowsOk(w'.t) && Follows(w.t, w'.t) && w'.t.messages.Keys == w.t.messages.Keys
  {
    LandedMoves(w.t, x);
    MovedKeepsRows(w.t, w'.t);
  }

  lemma LandedFlights(w: World, w': World, x: Write)
    requires Inv(w) && x in w.writes && WriteOk(w, x)
    requires w' == w.(t := Landed(w.t, x), writes := w.writes - {x})
    requires w'.t.messages.Keys == w.t.messages.Keys
    ensures forall id :: id in w'.t.messages ==> FlightsOk(w', id)
  {
    forall id | id in w'.t.messages ensures FlightsOk(w', id) {
      if id == x.id && Holds(w.t, x.id, Calling, x.lease) && StatusOf(x) == RetryWait {
        LandedRefusal(w, w', x);
      } else {
        FlightsFrame(w, w', id);
      }
    }
  }

  lemma LandedRefusal(w: World, w': World, x: Write)
    requires Inv(w) && x in w.writes && x.ResultWrite? && x.status == RetryWait && x.id in w.t.messages
    requires w'.flights == w.flights && w'.writes == w.writes - {x}
    requires w.t.messages[x.id].lease == x.lease
    requires x.id in w'.t.messages && w'.t.messages[x.id].lease == x.lease
    ensures FlightsOk(w', x.id)
  {
    assert WriteOk(w, x) && FlightsOk(w, x.id);
    assert forall k: Ticket :: EndedRefused(w, k) ==> EndedRefused(w', k);
    assert EndedRefused(w', Ticket(x.id, x.lease));
  }

  lemma StepKeepsInv(w: World, s: Step)
    requires Inv(w) && Enabled(w, s)
    ensures Inv(Apply(w, s)) && Follows(w.t, Apply(w, s).t)
  {
    match s
    case Expand(_, _, _, _) => ExpandKeepsInv(w, s);
    case Direct(_, _, _, _, _, _) => DirectKeepsInv(w, s);
    case Maintain(_, _) => MaintainKeepsInv(w, s);
    case Select(_, _) => PassKeepsInv(w, s);
    case Close(_) => PassKeepsInv(w, s);
    case TryClaim(_, _, _) => ClaimKeepsInv(w, s);
    case Defer(_) => PassKeepsInv(w, s);
    case Abandon => PassKeepsInv(w, s);
    case Send(_, _, _, _) => SendKeepsInv(w, s);
    case FailToSend(_, _) => SendKeepsInv(w, s);
    case Catch(_) => CatchKeepsInv(w, s);
    case Land(_) => LandKeepsInv(w, s);
    case Receipt(_) => OutsideKeepsInv(w, s);
    case Supersede(_) => OutsideKeepsInv(w, s);
  }

  lemma {:induction false} RunKeepsInv(h: seq<World>, steps: seq<Step>, i: nat)
    requires ValidRun(h, steps) && i < |h|
    ensures Inv(h[i])
  {
    if i > 0 {
      RunKeepsInv(h, steps, i - 1);
      StepKeepsInv(h[i-1], steps[i-1]);
    }
  }

  // ---------------------------------------------------------------- statuses only move forward

  predicate Final(s: Status) { s in {Accepted, Failed, Skipped, Superseded, Expired} }

  lemma {:induction false} StepFollows(h: seq<World>, steps: seq<Step>, i: nat)
    requires ValidRun(h, steps) && i < |steps|
    ensures Follows(h[i].t, h[i+1].t)
  {
    RunKeepsInv(h, steps, i);
    StepKeepsInv(h[i], steps[i]);
  }

  /** Whatever happens later, a closed message stays as it was closed, and an unknown result only
      ever becomes accepted. */
  lemma {:induction false} OutcomesAreFinal(h: seq<World>, steps: seq<Step>, i: nat, j: nat, id: string)
    requires ValidRun(h, steps) && i <= j < |h| && id in h[i].t.messages
    ensures id in h[j].t.messages
    ensures Final(h[i].t.messages[id].status) ==> h[j].t.messages[id].status == h[i].t.messages[id].status
    ensures h[i].t.messages[id].status == Unknown ==> h[j].t.messages[id].status in {Unknown, Accepted}
  {
    forall k | i <= k < j ensures Follows(h[k].t, h[k+1].t) { StepFollows(h, steps, k); }
    FinalWhileFollowing(h, i, j, id);
  }

  lemma {:induction false} FinalWhileFollowing(h: seq<World>, i: nat, j: nat, id: string)
    requires i <= j < |h| && id in h[i].t.messages
    requires forall k :: i <= k < j ==> Follows(h[k].t, h[k+1].t)
    ensures id in h[j].t.messages
    ensures Final(h[i].t.messages[id].status) ==> h[j].t.messages[id].status == h[i].t.messages[id].status
    ensures h[i].t.messages[id].status == Unknown ==> h[j].t.messages[id].status in {Unknown, Accepted}
    decreases j - i
  {
    if i < j {
      FinalWhileFollowing(h, i, j - 1, id);
      assert Follows(h[j-1].t, h[j-1+1].t);
    }
  }

  /** A message is called again only if every earlier call ended with the service refusing for now. */
  lemma {:induction false} CalledAgainOnlyAfterRefusal(
      h: seq<World>, steps: seq<Step>, i: nat, id: string, earlier: nat, later: nat)
    requires ValidRun(h, steps) && i < |h|
    requires 1 <= earlier < later && Ticket(id, later) in h[i].flights
    ensures Ticket(id, earlier) in h[i].flights
    ensures h[i].flights[Ticket(id, earlier)].call in {Made(RetryLater), Made(AuthRejected)}
  {
    RunKeepsInv(h, steps, i);
    assert FlightsOk(h[i], id);
    assert EndedRefused(h[i], Ticket(id, earlier));
  }

  // ---------------------------------------------------------------- a message and its delivery agree

  /** Equal statuses, unless the delivery was superseded from outside before it was called. */
  predicate Synced(t: Tables, id: string)
    requires id in t.messages && RowOk(t, t.messages[id])
  {
    var m := t.messages[id];
    m.purpose == Business ==>
      var d := t.deliveries[m.delivery.value];
      d == m.status || (d == Superseded && m.status != Calling)
  }

  /** The catch write of an older claim, landing while a newer one is being called. */
  predicate Overtaken(w: World, x: Write, id: string)
    requires id in w.t.messages
  {
    x.FailureWrite? && x.id == id && w.t.messages[id].status == Calling && x.lease != w.t.messages[id].lease
  }

  lemma RowIsOk(t: Tables, id: string)
    requires RowsOk(t) && id in t.messages
    ensures RowOk(t, t.messages[id])
  {
  }

  lemma OwnDelivery(t: Tables, a: string, b: string)
    requires RowsOk(t) && a in t.messages && b in t.messages && t.messages[a].delivery.Some?
    requires t.messages[a].delivery == t.messages[b].delivery
    ensures a == b
  {
  }

  lemma MaintainKeepsSync(t: Tables, now: int, selected: set<string>, id: string)
    requires RowsOk(t) && id in t.messages && RowOk(t, t.messages[id]) && Synced(t, id)
    ensures var t' := Maintained(t, now, selected);
            id in t'.messages && RowOk(t', t'.messages[id]) && Synced(t', id)
  {
    var m := t.messages[id];
    MaintainedMoves(t, now, selected);
    MovedKeepsRows(t, Maintained(t, now, selected));
    RowIsOk(Maintained(t, now, selected), id);
    if m.purpose == Business {
      var stale, expired := StalePage(t, now, selected), ExpiredPage(t, now, selected);
      forall other | other in t.messages && t.messages[other].delivery == m.delivery ensures other == id {
        OwnDelivery(t, id, other);
      }
      assert Carries(t.messages, stale, m.delivery.value) <==> id in stale;
      assert Carries(t.messages, expired, m.delivery.value) <==> id in expired;
    }
  }

  lemma CloseKeepsSync(t: Tables, c: Candidate, to: Status, id: string)
    requires RowsOk(t) && id in t.messages && RowOk(t, t.messages[id]) && Synced(t, id)
    requires Holds(t, c.id, c.seen.status, c.seen.lease) && Waiting(c.seen.status)
    requires t.messages[c.id].delivery == c.seen.delivery && to in {Skipped, Superseded, Expired}
    ensures var t' := Closed(t, c.id, c.seen, to);
            id in t'.messages && RowOk(t', t'.messages[id]) && Synced(t', id)
  {
    ClosedMoves(t, c.id, c.seen, to);
    MovedKeepsRows(t, Closed(t, c.id, c.seen, to));
    RowIsOk(Closed(t, c.id, c.seen, to), id);
    if id != c.id && t.messages[id].delivery.Some? && t.messages[id].delivery == c.seen.delivery {
      OwnDelivery(t, id, c.id);
    }
  }

  lemma ReceiptKeepsSync(t: Tables, confirmed: string, id: string)
    requires RowsOk(t) && id in t.messages && RowOk(t, t.messages[id]) && Synced(t, id)
    ensures var t' := Confirmed(t, confirmed);
            id in t'.messages && RowOk(t', t'.messages[id]) && Synced(t', id)
  {
    ConfirmedMoves(t, confirmed);
    MovedKeepsRows(t, Confirmed(t, confirmed));
    RowIsOk(Confirmed(t, confirmed), id);
    if confirmed in t.messages && id != confirmed && t.messages[id].delivery.Some?
       && t.messages[id].delivery == t.messages[confirmed].delivery {
      OwnDelivery(t, id, confirmed);
    }
  }

  lemma ClaimKeepsSync(t: Tables, c: Candidate, now: int, day: int, id: string)
    requires RowsOk(t) && id in t.messages && RowOk(t, t.messages[id]) && Synced(t, id)
    requires CanClaim(t, c.id, c.seen, day, true) && t.messages[c.id].delivery == c.seen.delivery
    ensures var t' := ClaimedTables(t, c.id, c.seen, now, day);
            id in t'.messages && RowOk(t', t'.messages[id]) && Synced(t', id)
  {
    RowIsOk(t, c.id);
    if id != c.id && t.messages[id].delivery.Some? && t.messages[id].delivery == c.seen.delivery {
      OwnDelivery(t, id, c.id);
    }
  }

  /** A result write finds the message still at its lease or no longer being called. */
  lemma ResultIsCurrent(w: World, x: Write)
    requires Inv(w) && x in w.writes
    ensures x.id in w.t.messages && x.lease <= w.t.messages[x.id].lease
    ensures x.delivery == w.t.messages[x.id].delivery
    ensures x.ResultWrite? ==> x.lease == w.t.messages[x.id].lease
  {
    assert WriteOk(w, x) && FlightsOk(w, x.id);
    assert x.ResultWrite? ==> !EndedRefused(w, Ticket(x.id, x.lease));
  }

  /** Landing a write keeps a message and its delivery together exactly when it is not overtaken. */
  lemma LandKeepsSync(w: World, x: Write, id: string)
    requires Inv(w) && x in w.writes && id in w.t.messages && RowOk(w.t, w.t.messages[id]) && Synced(w.t, id)
    ensures var t' := Landed(w.t, x);
            && id in t'.messages && RowOk(t', t'.messages[id])
            && (Synced(t', id) <==> !Overtaken(w, x, id))
  {
    assert WriteOk(w, x);
    ResultIsCurrent(w, x);
    LandedMoves(w.t, x);
    MovedKeepsRows(w.t, Landed(w.t, x));
    RowIsOk(Landed(w.t, x), id);
    if id != x.id { LandElsewhere(w.t, x, id); } else { LandOwn(w.t, x); }
  }

  lemma LandElsewhere(t: Tables, x: Write, id: string)
    requires RowsOk(t) && x.id in t.messages && x.delivery == t.messages[x.id].delivery
    requires id in t.messages && id != x.id && RowOk(t, t.messages[id])
    ensures Landed(t, x).messages[id] == t.messages[id]
    ensures t.messages[id].delivery.Some? ==>
              t.messages[id].delivery.value in Landed(t, x).deliveries
              && Landed(t, x).deliveries[t.messages[id].delivery.value] == t.deliveries[t.messages[id].delivery.value]
  {
    if t.messages[id].delivery.Some? && t.messages[id].delivery == x.delivery { OwnDelivery(t, id, x.id); }
  }

  lemma LandOwn(t: Tables, x: Write)
    requires x.id in t.messages && x.delivery == t.messages[x.id].delivery && RowOk(t, t.messages[x.id])
    requires Synced(t, x.id)
    requires StatusOf(x) in {Accepted, RetryWait, Unknown, Failed, Expired}
    requires x.ResultWrite? ==> x.lease == t.messages[x.id].lease
    requires x.FailureWrite? ==> t.messages[x.id].purpose == Business
    requires RowOk(Landed(t, x), Landed(t, x).messages[x.id])
    ensures Synced(Landed(t, x), x.id) <==>
              !(x.FailureWrite? && t.messages[x.id].status == Calling && x.lease != t.messages[x.id].lease)
  {
    var m := t.messages[x.id];
    if m.purpose == Business && m.status == Calling {
      assert t.deliveries[m.delivery.value] == Calling;
      assert Landed(t, x).deliveries[m.delivery.value] == StatusOf(x);
    }
  }

  lemma ExpandKeepsSync(t: Tables, id: string, delivery: string, critical: bool, expiresAt: int, other: string)
    requires other in t.messages && RowOk(t, t.messages[other]) && Synced(t, other)
    ensures var t' := WithPair(t, id, delivery, critical, expiresAt);
            other in t'.messages && RowOk(t', t'.messages[other]) && Synced(t', other)
  {
  }

  lemma SupersedeKeepsSync(t: Tables, deliveries: set<string>, id: string)
    requires id in t.messages && RowOk(t, t.messages[id]) && Synced(t, id)
    ensures var t' := WithSuperseded(t, deliveries);
            id in t'.messages && RowOk(t', t'.messages[id]) && Synced(t', id)
  {
  }

  lemma StartKeepsSync(w: World, s: Step, id: string)
    requires s.Direct? && id in w.t.messages && RowOk(w.t, w.t.messages[id]) && Synced(w.t, id)
    ensures var t' := Started(w, s.id, s.purpose, s.day, s.ready, s.expiresAt, s.now).t;
            id in t'.messages && RowOk(t', t'.messages[id]) && Synced(t', id)
  {
  }

  lemma DeferKeepsSync(t: Tables, c: Candidate, until: int, id: string)
    requires id in t.messages && RowOk(t, t.messages[id]) && Synced(t, id)
    ensures var t' := Deferred(t, c.id, c.seen, until);
            id in t'.messages && RowOk(t', t'.messages[id]) && Synced(t', id)
  {
  }

  /** The exact condition, step by step: an agreeing pair stops agreeing only through an overtaken write. */
  lemma SyncStep(w: World, s: Step, id: string)
    requires Inv(w) && Enabled(w, s) && id in w.t.messages && RowOk(w.t, w.t.messages[id]) && Synced(w.t, id)
    ensures var t' := Apply(w, s).t;
            && id in t'.messages && RowOk(t', t'.messages[id])
            && (Synced(t', id) <==> !(s.Land? && Overtaken(w, s.write, id)))
  {
    match s
    case Land(x) => LandKeepsSync(w, x, id);
    case Maintain(now, selected) => MaintainKeepsSync(w.t, now, selected, id);
    case Close(review) => CloseKeepsSync(w.t, w.pass.value, review, id);
    case Receipt(confirmed) => ReceiptKeepsSync(w.t, confirmed, id);
    case TryClaim(now, day, eligible) => TryClaimKeepsSync(w, now, day, eligible, id);
    case Expand(i, delivery, critical, expiresAt) => ExpandKeepsSync(w.t, i, delivery, critical, expiresAt, id);
    case Supersede(deliveries) => SupersedeKeepsSync(w.t, deliveries, id);
    case Direct(_, _, _, _, _, _) => StartKeepsSync(w, s, id);
    case Defer(until) => DeferKeepsSync(w.t, w.pass.value, until, id);
    case _ =>
  }

  lemma TryClaimKeepsSync(w: World, now: int, day: int, eligible: bool, id: string)
    requires Inv(w) && w.pass.Some? && id in w.t.messages && RowOk(w.t, w.t.messages[id]) && Synced(w.t, id)
    ensures var t' := Apply(w, TryClaim(now, day, eligible)).t;
            id in t'.messages && RowOk(t', t'.messages[id]) && Synced(t', id)
  {
    var c := w.pass.value;
    if CanClaim(w.t, c.id, c.seen, day, eligible) { ClaimKeepsSync(w.t, c, now, day, id); }
  }

  lemma OnlyTheseAdd(w: World, s: Step)
    requires Inv(w) && Enabled(w, s) && !s.Expand? && !s.Direct?
    ensures Apply(w, s).t.messages.Keys == w.t.messages.Keys
  {
    if s.Land? { LandAddsNothing(w, s.write); } else if s.Maintain? { MaintainAddsNothing(w.t, s.now, s.selected); }
  }

  lemma LandAddsNothing(w: World, x: Write)
    requires Inv(w) && x in w.writes
    ensures Landed(w.t, x).messages.Keys == w.t.messages.Keys
  {
    assert WriteOk(w, x);
    LandedMoves(w.t, x);
  }

  lemma MaintainAddsNothing(t: Tables, now: int, selected: set<string>)
    ensures Maintained(t, now, selected).messages.Keys == t.messages.Keys
  {
    MaintainedMoves(t, now, selected);
  }

  lemma FreshIsSynced(w: World, s: Step, id: string)
    requires Inv(w) && Enabled(w, s) && id !in w.t.messages && id in Apply(w, s).t.messages
    ensures RowOk(Apply(w, s).t, Apply(w, s).t.messages[id]) && Synced(Apply(w, s).t, id)
  {
    StepKeepsInv(w, s);
    RowIsOk(Apply(w, s).t, id);
    if !s.Direct? && !s.Expand? { OnlyTheseAdd(w, s); }
  }

  lemma StepSynced(w: World, s: Step, id: string)
    requires Inv(w) && Enabled(w, s) && id in Apply(w, s).t.messages
    requires id in w.t.messages ==>
        RowOk(w.t, w.t.messages[id]) && Synced(w.t, id) && !(s.Land? && Overtaken(w, s.write, id))
    ensures RowOk(Apply(w, s).t, Apply(w, s).t.messages[id]) && Synced(Apply(w, s).t, id)
  {
    if id in w.t.messages { SyncStep(w, s, id); } else { FreshIsSynced(w, s, id); }
  }

  /** In every run in which no catch write is overtaken by a newer claim of its message, every message
      and its delivery agree in every state. */
  lemma {:induction false} MessagesAndDeliveriesAgree(h: seq<World>, steps: seq<Step>, i: nat, id: string)
    requires ValidRun(h, steps) && i < |h| && id in h[i].t.messages
    requires forall j :: 0 <= j < i && id in h[j].t.messages && steps[j].Land? ==> !Overtaken(h[j], steps[j].write, id)
    ensures RowOk(h[i].t, h[i].t.messages[id]) && Synced(h[i].t, id)
  {
    if i > 0 {
      RunKeepsInv(h, steps, i - 1);
      if id in h[i-1].t.messages { MessagesAndDeliveriesAgree(h, steps, i - 1, id); }
      StepSynced(h[i-1], steps[i-1], id);
    }
  }

  // The condition is needed: a first call is refused for now, its catch branch is still under way when
  // the message is claimed again, and the catch write lands last.

  function RowAs(status: Status, lease: nat, leaseExpires: Option<int>, next: Option<int>): Message {
    Message(Business, false, Some("d"), status, lease, lease, leaseExpires, next, 1_000_000)
  }

  function TablesAs(row: Message, delivery: Status, send: map<int, nat>): Tables {
    Tables(map["m" := row], map["d" := delivery], send)
  }

  const FIRST := Ticket("m", 1)
  const SECOND := Ticket("m", 2)
  const FIRST_RESULT := ResultWrite("m", 1, Some("d"), RetryWait, Some(600_000))
  const FIRST_CATCH := FailureWrite("m", 1, Some("d"))

  const RACE_STEPS: seq<Step> := [
    Expand("m", "d", false, 1_000_000), Select("m", 0), TryClaim(0, 0, true), Send(FIRST, RetryLater, None, 0),
        Catch(FIRST),
    Land(FIRST_RESULT), Select("m", 600_000), TryClaim(600_000, 0, true), Land(FIRST_CATCH)]

  const RACE: seq<World> := [
    EMPTY_WORLD,
    World(TablesAs(RowAs(Pending, 0, None, None), Pending, map[]), None, map[], {}, [], []),
    World(TablesAs(RowAs(Pending, 0, None, None), Pending, map[]),
          Some(Candidate("m", RowAs(Pending, 0, None, None))), map[], {}, [], []),
    World(TablesAs(RowAs(Calling, 1, Some(120_000), None), Calling, map[0 := 1]), None,
          map[FIRST := Flight(NotYet, false)], {}, [Claim(FIRST, 0, false)], []),
    World(TablesAs(RowAs(Calling, 1, Some(120_000), None), Calling, map[0 := 1]), None,
          map[FIRST := Flight(Made(RetryLater), false)], {FIRST_RESULT}, [Claim(FIRST, 0, false)], [FIRST]),
    World(TablesAs(RowAs(Calling, 1, Some(120_000), None), Calling, map[0 := 1]), None,
          map[FIRST := Flight(Made(RetryLater), true)], {FIRST_RESULT, FIRST_CATCH}, [Claim(FIRST, 0, false)], [FIRST]),
    World(TablesAs(RowAs(RetryWait, 1, None, Some(600_000)), RetryWait, map[0 := 1]), None,
          map[FIRST := Flight(Made(RetryLater), true)], {FIRST_CATCH}, [Claim(FIRST, 0, false)], [FIRST]),
    World(TablesAs(RowAs(RetryWait, 1, None, Some(600_000)), RetryWait, map[0 := 1]),
          Some(Candidate("m", RowAs(RetryWait, 1, None, Some(600_000)))),
          map[FIRST := Flight(Made(RetryLater), true)], {FIRST_CATCH}, [Claim(FIRST, 0, false)], [FIRST]),
    World(TablesAs(RowAs(Calling, 2, Some(720_000), None), Calling, map[0 := 2]), None,
          map[FIRST := Flight(Made(RetryLater), true), SECOND := Flight(NotYet, false)], {FIRST_CATCH},
          [Claim(FIRST, 0, false), Claim(SECOND, 0, false)], [FIRST]),
    World(TablesAs(RowAs(Calling, 2, Some(720_000), None), Failed, map[0 := 2]), None,
          map[FIRST := Flight(Made(RetryLater), true), SECOND := Flight(NotYet, false)], {},
          [Claim(FIRST, 0, false), Claim(SECOND, 0, false)], [FIRST])]

  lemma ClaimApplies(w: World, w': World, c: Candidate, now: int, day: int)
    requires w.pass == Some(c) && CanClaim(w.t, c.id, c.seen, day, true)
    requires var ticket := Ticket(c.id, c.seen.lease + 1);
             w' == World(ClaimedTables(w.t, c.id, c.seen, now, day), None,
                 w.flights[ticket := Flight(NotYet, false)], w.writes,
                         w.claims + [Claim(ticket, day, c.seen.critical)], w.requests)
    ensures Apply(w, TryClaim(now, day, true)) == w'
  {
  }

  lemma FirstClaim()
    ensures Enabled(RACE[2], RACE_STEPS[2]) && Apply(RACE[2], RACE_STEPS[2]) == RACE[3]
  {
    ClaimApplies(RACE[2], RACE[3], Candidate("m", RowAs(Pending, 0, None, None)), 0, 0);
  }

  lemma SecondClaim()
    ensures Enabled(RACE[7], RACE_STEPS[7]) && Apply(RACE[7], RACE_STEPS[7]) == RACE[8]
  {
    ClaimApplies(RACE[7], RACE[8], Candidate("m", RowAs(RetryWait, 1, None, Some(600_000))), 600_000, 0);
  }

  lemma RaceReads()
    ensures Enabled(RACE[0], RACE_STEPS[0]) && Apply(RACE[0], RACE_STEPS[0]) == RACE[1]
    ensures Enabled(RACE[1], RACE_STEPS[1]) && Apply(RACE[1], RACE_STEPS[1]) == RACE[2]
    ensures Enabled(RACE[6], RACE_STEPS[6]) && Apply(RACE[6], RACE_STEPS[6]) == RACE[7]
  {
  }

  lemma RaceSends()
    ensures Enabled(RACE[3], RACE_STEPS[3]) && Apply(RACE[3], RACE_STEPS[3]) == RACE[4]
  {
    assert RetryDelay(1, None) == 600_000 by { assert Pow2(0) == 1; }
  }

  lemma RaceThrows()
    ensures Enabled(RACE[4], RACE_STEPS[4]) && Apply(RACE[4], RACE_STEPS[4]) == RACE[5]
  {
  }

  lemma RaceLandsResult()
    ensures Enabled(RACE[5], RACE_STEPS[5]) && Apply(RACE[5], RACE_STEPS[5]) == RACE[6]
  {
  }

  lemma RaceLandsFailure()
    ensures Enabled(RACE[8], RACE_STEPS[8]) && Apply(RACE[8], RACE_STEPS[8]) == RACE[9]
  {
  }

  lemma RaceStep(i: nat)
    requires i < |RACE_STEPS|
    ensures Enabled(RACE[i], RACE_STEPS[i]) && RACE[i+1] == Apply(RACE[i], RACE_STEPS[i])
  {
    if i == 0 || i == 1 || i == 6 {
      RaceReads();
    } else if i == 2 {
      FirstClaim();
    } else if i == 3 {
      RaceSends();
    } else if i == 7 {
      SecondClaim();
    } else if i == 4 {
      RaceThrows();
    } else if i == 5 {
      RaceLandsResult();
    } else {
      RaceLandsFailure();
    }
  }

  lemma OvertakenWriteSplitsThem()
    ensures ValidRun(RACE, RACE_STEPS)
    ensures "m" in RACE[8].t.messages && Overtaken(RACE[8], FIRST_CATCH, "m")
    ensures "m" in RACE[9].t.messages && RowOk(RACE[9].t, RACE[9].t.messages["m"]) && !Synced(RACE[9].t, "m")
  {
    assert ValidRun(RACE, RACE_STEPS) by {
      forall i | 0 <= i < |RACE_STEPS|
          ensures Enabled(RACE[i], RACE_STEPS[i]) && RACE[i+1] == Apply(RACE[i], RACE_STEPS[i]) {
        RaceStep(i);
      }
    }
  }

  // ---------------------------------------------------------------- the daily budget

  function CountOn(claims: seq<Claim>, day: int): nat {
    if claims == [] then 0
    else CountOn(claims[..|claims| - 1], day) + (if claims[|claims| - 1].day == day then 1 else 0)
  }

  function OrdinaryOn(claims: seq<Claim>, day: int): nat {
    if claims == [] then 0
    else OrdinaryOn(claims[..|claims| - 1], day)
         + (if claims[|claims| - 1].day == day && !claims[|claims| - 1].critical then 1 else 0)
  }

  /** No claim was made beyond the limit of its kind. */
  predicate WithinLimits(claims: seq<Claim>) {
    forall k :: 0 <= k < |claims| ==> CountOn(claims[..k+1], claims[k].day) <= SendDayLimit(claims[k].critical)
  }

  function Tickets(claims: seq<Claim>): set<Ticket> {
    set k | 0 <= k < |claims| :: claims[k].ticket
  }

  predicate DistinctClaims(claims: seq<Claim>) {
    forall i, j :: 0 <= i < j < |claims| ==> claims[i].ticket != claims[j].ticket
  }

  ghost predicate RequestsOk(w: World) {
    && (forall i, j :: 0 <= i < j < |w.requests| ==> w.requests[i] != w.requests[j])
    && (forall i :: 0 <= i < |w.requests| ==> w.requests[i] in w.flights && w.flights[w.requests[i]].call.Made?)
  }

  ghost predicate CountersExact(t: Tables, claims: seq<Claim>) {
    forall day :: SentOn(t, day) == CountOn(claims, day)
  }

  ghost predicate BudgetInv(w: World) {
    && CountersExact(w.t, w.claims)
    && WithinLimits(w.claims)
    && DistinctClaims(w.claims)
    && w.flights.Keys == Tickets(w.claims)
    && RequestsOk(w)
  }

  lemma OneMoreCount(claims: seq<Claim>, c: Claim)
    requires WithinLimits(claims) && CountOn(claims, c.day) < SendDayLimit(c.critical)
    ensures WithinLimits(claims + [c])
    ensures forall day :: CountOn(claims + [c], day) == CountOn(claims, day) + (if c.day == day then 1 else 0)
    ensures Tickets(claims + [c]) == Tickets(claims) + {c.ticket}
  {
    CountsMore(claims, c);
    LimitsKept(claims, c);
    TicketsMore(claims, c);
  }

  lemma CountsMore(claims: seq<Claim>, c: Claim)
    ensures forall day :: CountOn(claims + [c], day) == CountOn(claims, day) + (if c.day == day then 1 else 0)
  {
    assert (claims + [c])[..|claims|] == claims;
  }

  lemma LimitsKept(claims: seq<Claim>, c: Claim)
    requires WithinLimits(claims) && CountOn(claims, c.day) < SendDayLimit(c.critical)
    ensures WithinLimits(claims + [c])
  {
    var more := claims + [c];
    CountsMore(claims, c);
    forall k | 0 <= k < |more| ensures CountOn(more[..k+1], more[k].day) <= SendDayLimit(more[k].critical) {
      if k < |claims| { assert more[..k+1] == claims[..k+1]; } else { assert more[..k+1] == more; }
    }
  }

  lemma TicketsMore(claims: seq<Claim>, c: Claim)
    ensures Tickets(claims + [c]) == Tickets(claims) + {c.ticket}
  {
    var more := claims + [c];
    forall ticket | ticket in Tickets(claims) + {c.ticket} ensures ticket in Tickets(more) {
      if ticket in Tickets(claims) {
        var k :| 0 <= k < |claims| && claims[k].ticket == ticket;
        assert more[k].ticket == ticket;
      } else {
        assert more[|claims|].ticket == ticket;
      }
    }
  }

  lemma OneMoreClaim(w: World, w': World, c: Claim)
    requires BudgetInv(w) && c.ticket !in w.flights && w'.requests == w.requests
    requires w'.claims == w.claims + [c] && w'.flights == w.flights[c.ticket := Flight(NotYet, false)]
    requires SentOn(w.t, c.day) < SendDayLimit(c.critical)
    requires w'.t.send == w.t.send[c.day := SentOn(w.t, c.day) + 1]
    ensures BudgetInv(w')
  {
    assert SentOn(w.t, c.day) == CountOn(w.claims, c.day);
    OneMoreCount(w.claims, c);
    OneMoreSent(w.t, w'.t, w.claims, c);
    NewTicketIsDistinct(w.claims, c);
    OneMoreFlight(w, w', c.ticket);
  }

  lemma OneMoreSent(t: Tables, t': Tables, claims: seq<Claim>, c: Claim)
    requires CountersExact(t, claims) && t'.send == t.send[c.day := SentOn(t, c.day) + 1]
    requires forall day :: CountOn(claims + [c], day) == CountOn(claims, day) + (if c.day == day then 1 else 0)
    ensures CountersExact(t', claims + [c])
  {
    forall day ensures SentOn(t', day) == CountOn(claims + [c], day) { assert SentOn(t, day) == CountOn(claims, day); }
  }

  lemma OneMoreFlight(w: World, w': World, ticket: Ticket)
    requires RequestsOk(w) && ticket !in w.flights && w'.requests == w.requests
    requires w'.flights == w.flights[ticket := Flight(NotYet, false)]
    ensures RequestsOk(w') && w'.flights.Keys == w.flights.Keys + {ticket}
  {
  }

  lemma NewTicketIsDistinct(claims: seq<Claim>, c: Claim)
    requires DistinctClaims(claims) && c.ticket !in Tickets(claims)
    ensures DistinctClaims(claims + [c])
  {
    forall i | 0 <= i < |claims| ensures claims[i].ticket != c.ticket { assert claims[i].ticket in Tickets(claims); }
  }

  lemma SameBudget(w: World, w': World)
    requires BudgetInv(w) && w'.claims == w.claims && w'.requests == w.requests
    requires w'.flights.Keys == w.flights.Keys
    requires forall k :: k in w.flights && w.flights[k].call.Made? ==> w'.flights[k].call.Made?
    requires forall day :: SentOn(w'.t, day) == SentOn(w.t, day)
    ensures BudgetInv(w')
  {
  }

  lemma SendKeepsBudget(w: World, s: Step)
    requires BudgetInv(w) && Enabled(w, s) && s.Send?
    ensures BudgetInv(Apply(w, s))
  {
    var w' := Apply(w, s);
    assert w'.flights.Keys == w.flights.Keys;
    assert RequestsOk(w');
  }

  lemma StartedBudget(
      w: World, id: string, purpose: Purpose, day: int, ready: bool, expiresAt: int, now: int)
    requires BudgetInv(w) && (id !in w.t.messages ==> Ticket(id, 1) !in w.flights)
    ensures BudgetInv(Started(w, id, purpose, day, ready, expiresAt, now))
  {
    var w' := Started(w, id, purpose, day, ready, expiresAt, now);
    if CanStart(w.t, day, ready) && id !in w.t.messages {
      OneMoreClaim(w, w', Claim(Ticket(id, 1), day, false));
    } else {
      SameBudget(w, w');
    }
  }

  lemma TriedBudget(w: World, c: Candidate, now: int, day: int, eligible: bool)
    requires BudgetInv(w) && Ticket(c.id, c.seen.lease + 1) !in w.flights
    ensures BudgetInv(Tried(w, c, now, day, eligible))
  {
    var w' := Tried(w, c, now, day, eligible);
    if CanClaim(w.t, c.id, c.seen, day, eligible) {
      OneMoreClaim(w, w', Claim(Ticket(c.id, c.seen.lease + 1), day, c.seen.critical));
    } else {
      SameBudget(w, w');
    }
  }

  lemma NextTicketIsNew(w: World, id: string)
    requires Inv(w)
    ensures id in w.t.messages ==> Ticket(id, w.t.messages[id].lease + 1) !in w.flights
    ensures id !in w.t.messages ==> Ticket(id, 1) !in w.flights
  {
    if id in w.t.messages { assert FlightsOk(w, id); }
  }

  lemma StepKeepsBudget(w: World, s: Step)
    requires Inv(w) && BudgetInv(w) && Enabled(w, s)
    ensures BudgetInv(Apply(w, s))
  {
    if s.Direct? {
      NextTicketIsNew(w, s.id);
      StartedBudget(w, s.id, s.purpose, s.day, s.ready, s.expiresAt, s.now);
    } else if s.TryClaim? {
      NextTicketIsNew(w, w.pass.value.id);
      TriedBudget(w, w.pass.value, s.now, s.day, s.eligible);
    } else if s.Send? {
      SendKeepsBudget(w, s);
    } else {
      OtherKeepsBudget(w, s);
    }
  }

  lemma OtherKeepsBudget(w: World, s: Step)
    requires BudgetInv(w) && Enabled(w, s) && !s.Direct? && !s.TryClaim? && !s.Send?
    ensures BudgetInv(Apply(w, s))
  {
    OtherHistory(w, s);
    SameBudget(w, Apply(w, s));
  }

  lemma OtherHistory(w: World, s: Step)
    requires Enabled(w, s) && !s.Direct? && !s.TryClaim? && !s.Send?
    ensures var w' := Apply(w, s);
            && w'.t.send == w.t.send && w'.claims == w.claims && w'.requests == w.requests
            && w'.flights.Keys == w.flights.Keys
            && forall k :: k in w.flights && w.flights[k].call.Made? ==> w'.flights[k].call.Made?
  {
  }

  lemma {:induction false} RunKeepsBudget(h: seq<World>, steps: seq<Step>, i: nat)
    requires ValidRun(h, steps) && i < |h|
    ensures BudgetInv(h[i])
  {
    if i > 0 {
      RunKeepsBudget(h, steps, i - 1);
      RunKeepsInv(h, steps, i - 1);
      StepKeepsBudget(h[i-1], steps[i-1]);
    }
  }

  lemma {:induction false} OrdinaryBelowReserve(claims: seq<Claim>, day: int)
    requires WithinLimits(claims)
    ensures OrdinaryOn(claims, day) <= CountOn(claims, day)
    ensures OrdinaryOn(claims, day) <= SendDayLimit(false)
    ensures CountOn(claims, day) <= PUSH_SEND_DAY
  {
    if claims != [] {
      var k := |claims| - 1;
      forall j | 0 <= j < |claims[..k]|
        ensures CountOn(claims[..k][..j+1], claims[..k][j].day) <= SendDayLimit(claims[..k][j].critical)
      {
        assert claims[..k][..j+1] == claims[..j+1] && claims[..k][j] == claims[j];
      }
      OrdinaryBelowReserve(claims[..k], day);
      assert claims[..k+1] == claims;
      assert CountOn(claims[..k+1], claims[k].day) <= SendDayLimit(claims[k].critical);
    }
  }

  /** The counter of a day is the number of claims made that day, for every purpose and retry; it stays
      within the day's budget, no ordinary claim takes it past the part that is not reserved, and as long as
      critical claims stay within their reserve none of them finds the budget used up. */
  lemma {:induction false} SendCounterIsExact(h: seq<World>, steps: seq<Step>, i: nat, day: int)
    requires ValidRun(h, steps) && i < |h|
    ensures SentOn(h[i].t, day) == CountOn(h[i].claims, day) <= PUSH_SEND_DAY
    ensures OrdinaryOn(h[i].claims, day) <= PUSH_SEND_DAY - PUSH_CRITICAL_RESERVED_DAY
    ensures CountOn(h[i].claims, day) - OrdinaryOn(h[i].claims, day) < PUSH_CRITICAL_RESERVED_DAY ==>
              SentOn(h[i].t, day) < SendDayLimit(true)
    ensures forall k :: 0 <= k < |h[i].claims| ==>
              CountOn(h[i].claims[..k+1], h[i].claims[k].day) <=
                if h[i].claims[k].critical then PUSH_SEND_DAY else PUSH_SEND_DAY - PUSH_CRITICAL_RESERVED_DAY
  {
    RunKeepsBudget(h, steps, i);
    OrdinaryBelowReserve(h[i].claims, day);
  }

  /** Requests leave only under a claim of their own: no two requests share one. */
  lemma {:induction false} OneRequestPerClaim(h: seq<World>, steps: seq<Step>, i: nat)
    requires ValidRun(h, steps) && i < |h|
    ensures forall a, b :: 0 <= a < b < |h[i].requests| ==> h[i].requests[a] != h[i].requests[b]
    ensures forall a :: 0 <= a < |h[i].requests| ==> h[i].requests[a] in Tickets(h[i].claims)
    ensures DistinctClaims(h[i].claims)
  {
    RunKeepsBudget(h, steps, i);
  }
}
