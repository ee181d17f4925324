/** When a refused notification is called again: over every run, not before its backoff is over and not before
    the time the push service asked for. */
module PushTiming {
  import opened Wrappers
  import opened PushTables
  import opened PushDelivery

  /** Step `k` is the call of this claim, and the service refused it for now. */
  predicate RefusedAt(steps: seq<Step>, k: nat, id: string, lease: nat) {
    k < |steps| && steps[k].Send? && steps[k].ticket == Ticket(id, lease) && Refused(steps[k].outcome)
  }

  predicate WaitedSince(steps: seq<Step>, k: nat, id: string, lease: nat, at: int, delay: int) {
    RefusedAt(steps, k, id, lease) && IsRetryDelay(delay, lease, steps[k].retryAfter) && steps[k].now + delay <= at
  }

  /** The time lies at least the retry delay after a refused call of this claim among the first `n` steps. */
  ghost predicate Waited(steps: seq<Step>, n: nat, id: string, lease: nat, at: int) {
    exists k: nat, delay :: k < n && WaitedSince(steps, k, id, lease, at, delay)
  }

  /** The message was taken up again only after it had waited. */
  ghost predicate TakenInTime(steps: seq<Step>, n: nat, id: string, lease: nat) {
    exists i: nat :: i < n && i < |steps| && steps[i].Select? && steps[i].id == id
      && Waited(steps, i, id, lease, steps[i].now)
  }

  lemma WaitedLater(steps: seq<Step>, n: nat, id: string, lease: nat, at: int, later: int)
    requires Waited(steps, n, id, lease, at) && at <= later
    ensures Waited(steps, n, id, lease, later) && Waited(steps, n + 1, id, lease, later)
  {
    var k: nat, delay :| k < n && WaitedSince(steps, k, id, lease, at, delay);
    assert WaitedSince(steps, k, id, lease, later, delay);
  }

  ghost predicate RowTimed(w: World, steps: seq<Step>, n: nat, id: string) {
    id in w.t.messages && w.t.messages[id].status == RetryWait ==>
      && w.t.messages[id].nextAttempt.Some?
      && Waited(steps, n, id, w.t.messages[id].lease, w.t.messages[id].nextAttempt.value)
  }

  ghost predicate WriteTimed(steps: seq<Step>, n: nat, x: Write) {
    x.ResultWrite? && x.status == RetryWait ==>
      x.nextAttempt.Some? && Waited(steps, n, x.id, x.lease, x.nextAttempt.value)
  }

  ghost predicate PassTimed(w: World, steps: seq<Step>, n: nat) {
    w.pass.Some? ==>
      var c := w.pass.value;
      && c.id in w.t.messages && w.t.messages[c.id].nextAttempt == c.seen.nextAttempt
      && (c.seen.status == RetryWait ==> TakenInTime(steps, n, c.id, c.seen.lease))
  }

  ghost predicate Timed(w: World, steps: seq<Step>, n: nat) {
    && (forall id :: RowTimed(w, steps, n, id))
    && (forall x :: x in w.writes ==> WriteTimed(steps, n, x))
    && PassTimed(w, steps, n)
    && (forall k :: k in w.flights ==> FlightTimed(steps, n, k))
  }

  ghost predicate FlightTimed(steps: seq<Step>, n: nat, k: Ticket) {
    k.lease >= 2 ==> TakenInTime(steps, n, k.id, k.lease - 1)
  }

  /** A row a step leaves waiting was waiting for the same or an earlier time, or takes it from a result write. */
  predicate RowFrom(w: World, w': World, s: Step, id: string) {
    id in w'.t.messages && w'.t.messages[id].status == RetryWait ==>
      var m' := w'.t.messages[id];
      || (id in w.t.messages && w.t.messages[id].status == RetryWait && w.t.messages[id].lease == m'.lease
          && w.t.messages[id].nextAttempt.Some?
          && m'.nextAttempt.Some? && w.t.messages[id].nextAttempt.value <= m'.nextAttempt.value)
      || (s.Land? && s.write.ResultWrite? && s.write.id == id && s.write.lease == m'.lease
          && s.write.status == RetryWait && s.write.nextAttempt == m'.nextAttempt)
  }

  lemma LandRow(w: World, x: Write, id: string)
    requires id in w.t.messages ==>
               w.t.messages[id].status == RetryWait ==> w.t.messages[id].nextAttempt.Some?
    requires StatusOf(x) == RetryWait ==> x.ResultWrite?
    ensures RowFrom(w, w.(t := Landed(w.t, x), writes := w.writes - {x}), Land(x), id)
  {
    LandingMeans(w.t, x);
  }

  predicate Keeps(t: Tables, t': Tables, id: string) {
    id in t'.messages && t'.messages[id].status == RetryWait ==>
      id in t.messages && t.messages[id].status == RetryWait && t.messages[id].lease == t'.messages[id].lease
      && t.messages[id].nextAttempt == t'.messages[id].nextAttempt
  }

  lemma MaintainRow(t: Tables, now: int, selected: set<string>, id: string)
    ensures Keeps(t, Maintained(t, now, selected), id)
  {
  }

  lemma CloseRow(t: Tables, c: Candidate, review: Status, id: string)
    requires review in {Skipped, Superseded, Expired}
    ensures Keeps(t, Closed(t, c.id, c.seen, review), id)
  {
    ClosingMeans(t, c.id, c.seen, review);
  }

  lemma ReceiptRow(t: Tables, confirmed: string, id: string)
    ensures Keeps(t, Confirmed(t, confirmed), id)
  {
  }

  lemma TriedRow(w: World, now: int, day: int, eligible: bool, id: string)
    requires w.pass.Some?
    ensures Keeps(w.t, Tried(w, w.pass.value, now, day, eligible).t, id)
  {
  }

  lemma StartedRow(w: World, s: Step, id: string)
    requires s.Direct? && Enabled(w, s)
    ensures Keeps(w.t, Apply(w, s).t, id)
  {
  }

  lemma OtherRow(w: World, s: Step, id: string)
    requires Enabled(w, s) && !s.Land? && !s.Defer?
    ensures Keeps(w.t, Apply(w, s).t, id)
  {
    match s
    case Maintain(now, selected) => MaintainRow(w.t, now, selected, id);
    case Close(review) => CloseRow(w.t, w.pass.value, review, id);
    case TryClaim(now, day, eligible) => TriedRow(w, now, day, eligible, id);
    case Receipt(confirmed) => ReceiptRow(w.t, confirmed, id);
    case Direct(_, _, _, _, _, _) => StartedRow(w, s, id);
    case _ =>
  }

  /** Deferring only ever moves the next attempt later. */
  lemma DeferRow(w: World, s: Step, id: string)
    requires Enabled(w, s) && s.Defer?
    requires w.pass.value.id in w.t.messages
    requires w.t.messages[w.pass.value.id].nextAttempt == w.pass.value.seen.nextAttempt
    requires id in w.t.messages && w.t.messages[id].status == RetryWait ==> w.t.messages[id].nextAttempt.Some?
    ensures RowFrom(w, Apply(w, s), s, id)
  {
  }

  lemma RowStaysTimed(w: World, s: Step, steps: seq<Step>, n: nat, id: string)
    requires Enabled(w, s) && Timed(w, steps, n)
    ensures RowTimed(Apply(w, s), steps, n + 1, id)
  {
    assert RowTimed(w, steps, n, id);
    var w' := Apply(w, s);
    if s.Land? {
      LandRow(w, s.write, id);
      assert WriteTimed(steps, n, s.write);
    } else if s.Defer? {
      DeferRow(w, s, id);
    } else {
      OtherRow(w, s, id);
    }
    if id in w'.t.messages && w'.t.messages[id].status == RetryWait {
      var at := w'.t.messages[id].nextAttempt.value;
      if id in w.t.messages && w.t.messages[id].status == RetryWait
         && w.t.messages[id].lease == w'.t.messages[id].lease
      {
        var before := w.t.messages[id].nextAttempt.value;
        if before <= at && Waited(steps, n, id, w'.t.messages[id].lease, before) {
          WaitedLater(steps, n, id, w'.t.messages[id].lease, before, at);
        } else {
          WaitedLater(steps, n, id, w'.t.messages[id].lease, at, at);
        }
      } else {
        WaitedLater(steps, n, id, w'.t.messages[id].lease, at, at);
      }
    }
  }

  /** The result of a call carries the time its refusal asks for. */
  lemma IssuedInTime(w: World, steps: seq<Step>, n: nat, x: Write)
    requires n < |steps| && Enabled(w, steps[n]) && (steps[n].Send? || steps[n].FailToSend?)
    requires x in Apply(w, steps[n]).writes && x !in w.writes
    ensures WriteTimed(steps, n + 1, x)
  {
    var s := steps[n];
    if s.Send? && x.status == RetryWait {
      var delay := RetryDelayExists(s.ticket.lease, s.retryAfter);
      RetryIsTimed(w.t.messages[s.ticket.id], s.ticket.lease, s.outcome, s.retryAfter, s.now, delay);
      assert WaitedSince(steps, n, x.id, x.lease, x.nextAttempt.value, delay);
    }
  }

  lemma WriteStaysTimed(w: World, steps: seq<Step>, n: nat, x: Write)
    requires n < |steps| && Enabled(w, steps[n]) && Timed(w, steps, n) && x in Apply(w, steps[n]).writes
    ensures WriteTimed(steps, n + 1, x)
  {
    if x in w.writes {
      assert WriteTimed(steps, n, x);
      if x.ResultWrite? && x.status == RetryWait {
        WaitedLater(steps, n, x.id, x.lease, x.nextAttempt.value, x.nextAttempt.value);
      }
    } else if steps[n].Send? || steps[n].FailToSend? {
      IssuedInTime(w, steps, n, x);
    }
  }

  lemma TakenLater(steps: seq<Step>, n: nat, id: string, lease: nat)
    requires TakenInTime(steps, n, id, lease)
    ensures TakenInTime(steps, n + 1, id, lease)
  {
    var i: nat :| i < n && i < |steps| && steps[i].Select? && steps[i].id == id
      && Waited(steps, i, id, lease, steps[i].now);
  }

  /** A pass takes up a refused message only once it is due. */
  lemma SelectedInTime(w: World, steps: seq<Step>, n: nat)
    requires n < |steps| && steps[n].Select? && Enabled(w, steps[n]) && Timed(w, steps, n)
    ensures PassTimed(Apply(w, steps[n]), steps, n + 1)
  {
    var s := steps[n];
    var m := w.t.messages[s.id];
    if m.status == RetryWait {
      assert RowTimed(w, steps, n, s.id);
      WaitedLater(steps, n, s.id, m.lease, m.nextAttempt.value, s.now);
    }
  }

  lemma PassRowSame(w: World, s: Step)
    requires Inv(w) && Enabled(w, s) && w.pass.Some? && !s.Select? && Apply(w, s).pass.Some?
    ensures Apply(w, s).pass == w.pass
    ensures var id := w.pass.value.id;
            id in Apply(w, s).t.messages && Apply(w, s).t.messages[id].nextAttempt == w.t.messages[id].nextAttempt
  {
    if s.Land? { LandingMeans(w.t, s.write); }
  }

  lemma PassStaysTimed(w: World, steps: seq<Step>, n: nat)
    requires n < |steps| && Inv(w) && Enabled(w, steps[n]) && Timed(w, steps, n)
    ensures PassTimed(Apply(w, steps[n]), steps, n + 1)
  {
    if steps[n].Select? {
      SelectedInTime(w, steps, n);
    } else if Apply(w, steps[n]).pass.Some? {
      PassRowSame(w, steps[n]);
      var c := w.pass.value;
      if c.seen.status == RetryWait { TakenLater(steps, n, c.id, c.seen.lease); }
    }
  }

  /** A new claim of a message is the one its pass has read. */
  lemma NewFlight(w: World, s: Step, k: Ticket)
    requires Enabled(w, s) && k in Apply(w, s).flights && k !in w.flights && k.lease >= 2
    ensures w.pass.Some? && k == Ticket(w.pass.value.id, w.pass.value.seen.lease + 1)
  {
  }

  lemma ReadAsRefused(w: World)
    requires Inv(w) && w.pass.Some? && w.pass.value.seen.lease >= 1
    ensures w.pass.value.seen.status == RetryWait
  {
    RowIsOk(w.t, w.pass.value.id);
  }

  lemma FlightsStayTimed(w: World, steps: seq<Step>, n: nat, k: Ticket)
    requires n < |steps| && Inv(w) && Enabled(w, steps[n]) && Timed(w, steps, n)
    requires k in Apply(w, steps[n]).flights
    ensures FlightTimed(steps, n + 1, k)
  {
    if k.lease >= 2 {
      assert TakenInTime(steps, n, k.id, k.lease - 1) by {
        if k in w.flights { assert FlightTimed(steps, n, k); } else { ClaimedInTime(w, steps, n, k); }
      }
      TakenLater(steps, n, k.id, k.lease - 1);
    }
  }

  lemma ClaimedInTime(w: World, steps: seq<Step>, n: nat, k: Ticket)
    requires n < |steps| && Inv(w) && Enabled(w, steps[n]) && PassTimed(w, steps, n)
    requires k in Apply(w, steps[n]).flights && k !in w.flights && k.lease >= 2
    ensures TakenInTime(steps, n, k.id, k.lease - 1)
  {
    NewFlight(w, steps[n], k);
    ReadAsRefused(w);
  }

  lemma StepStaysTimed(w: World, steps: seq<Step>, n: nat)
    requires n < |steps| && Inv(w) && Enabled(w, steps[n]) && Timed(w, steps, n)
    ensures Timed(Apply(w, steps[n]), steps, n + 1)
  {
    var w', m := Apply(w, steps[n]), n + 1;
    forall id ensures RowTimed(w', steps, m, id) { RowStaysTimed(w, steps[n], steps, n, id); }
    forall x | x in w'.writes ensures WriteTimed(steps, m, x) { WriteStaysTimed(w, steps, n, x); }
    PassStaysTimed(w, steps, n);
    forall k | k in w'.flights ensures FlightTimed(steps, m, k) { FlightsStayTimed(w, steps, n, k); }
  }

  lemma {:induction false} RunIsTimed(h: seq<World>, steps: seq<Step>, n: nat)
    requires ValidRun(h, steps) && n < |h|
    ensures Timed(h[n], steps, n)
  {
    if n > 0 {
      RunIsTimed(h, steps, n - 1);
      RunKeepsInv(h, steps, n - 1);
      StepStaysTimed(h[n-1], steps, n - 1);
    }
  }

  /** Over every run: the second and every later call of a notification belongs to a pass that took it up no
      earlier than the retry delay after the refusal of the call before. */
  lemma {:induction false} RetriesWaitTheirTime(h: seq<World>, steps: seq<Step>, j: nat)
    requires ValidRun(h, steps) && j < |steps| && steps[j].Send? && steps[j].ticket.lease >= 2
    ensures TakenInTime(steps, j, steps[j].ticket.id, steps[j].ticket.lease - 1)
  {
    RunIsTimed(h, steps, j);
    assert Enabled(h[j], steps[j]);
    assert FlightTimed(steps, j, steps[j].ticket);
  }

  /** A pass takes up exactly a notification that waits, whose time has come and whose life is not over. */
  lemma TakenUpExactly(w: World, id: string, now: int)
    ensures Enabled(w, Select(id, now)) <==>
              && w.pass.None? && id in w.t.messages && w.t.messages[id].purpose == Business
              && w.t.messages[id].status in {Pending, RetryWait} && now < w.t.messages[id].expiresAt
              && (w.t.messages[id].nextAttempt.None? || w.t.messages[id].nextAttempt.value <= now)
  {
  }
}
