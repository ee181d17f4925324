/** Activation rounds: what a registration or a resume starts, how many notices a round can send, which
    challenges activate, and how long an activation lasts. */
module PushBindingRounds {
  import opened Wrappers
  import opened PushBindings
  import Cas

  /** A round that has just begun. */
  predicate FreshRound(b: Binding, start: int) {
    && b.state == Pending && b.deadline == Some(start + 600_000)
    && b.attempts == 0 && b.sentAt.None? && b.challenges == {}
  }

  /** Whatever earlier rounds used, resuming begins a new one. */
  lemma ResumeStartsRound(t: Store, id: string, user: string, version: nat, now: int, allowed: bool)
    requires Hits(t, Resume(id, user, version, allowed), now)
    ensures var t' := Acted(t, Resume(id, user, version, allowed), now);
            id in t'.rows && t'.rows[id].user == user && FreshRound(t'.rows[id], now)
  {
  }

  lemma RegistrationStartsRound(t: Store, r: Registration)
    requires Creating(t, r).0 == Cas.Committed
    ensures var t' := Creating(t, r).1;
            r.id in t'.rows && t'.rows[r.id].user == r.user && FreshRound(t'.rows[r.id], r.now)
  {
  }

  // ---------------------------------------------------------------- notices of one round

  datatype Notice = Notice(at: int, challenge: string)

  function Sending(id: string, user: string, n: Notice): Action { Send(id, user, n.challenge, true) }

  /** The store after asking for these notices one after the other. */
  function AfterNotices(t: Store, id: string, user: string, notices: seq<Notice>): Store {
    if notices == [] then t
    else
      var last := notices[|notices| - 1];
      Acted(AfterNotices(t, id, user, notices[..|notices| - 1]), Sending(id, user, last), last.at)
  }

  /** The times observe the cooldown and the deadline of a round begun at `start`. */
  predicate Spaced(notices: seq<Notice>, start: int) {
    && (forall i :: 0 <= i < |notices| ==> start <= notices[i].at < start + 600_000)
    && (forall i, j :: 0 <= i < j < |notices| ==> notices[i].at + 60_000 <= notices[j].at)
  }

  function Granted(k: nat): nat { if k < 3 then k else 3 }

  function Challenges(notices: seq<Notice>, k: nat): set<string>
    requires k <= |notices|
  {
    set i | 0 <= i < k :: notices[i].challenge
  }

  /** The row after `k` requests of the round. */
  predicate RoundRow(b: Binding, first: Binding, notices: seq<Notice>, k: nat)
    requires k <= |notices|
  {
    var n := Granted(k);
    && b.user == first.user && b.receipt == first.receipt && b.state == Pending && b.deadline == first.deadline
    && b.attempts == n && b.challenges == Challenges(notices, n)
    && b.sentAt == if n == 0 then None else Some(notices[n-1].at)
  }

  lemma {:induction false} RoundAfter(t: Store, id: string, user: string, start: int, notices: seq<Notice>, k: nat)
    requires id in t.rows && t.rows[id].user == user && FreshRound(t.rows[id], start)
    requires Spaced(notices, start) && k <= |notices|
    ensures var t' := AfterNotices(t, id, user, notices[..k]);
            id in t'.rows && RoundRow(t'.rows[id], t.rows[id], notices, k)
  {
    if k > 0 {
      RoundAfter(t, id, user, start, notices, k - 1);
      assert notices[..k][..k-1] == notices[..k-1];
      NextNotice(AfterNotices(t, id, user, notices[..k-1]), id, user, t.rows[id], start, notices, k - 1);
    }
  }

  /** The next request is granted exactly while fewer than three were. */
  lemma NextNotice(
      t: Store, id: string, user: string, first: Binding, start: int, notices: seq<Notice>, k: nat)
    requires first.user == user && FreshRound(first, start) && Spaced(notices, start) && k < |notices|
    requires id in t.rows && RoundRow(t.rows[id], first, notices, k)
    ensures Hits(t, Sending(id, user, notices[k]), notices[k].at) <==> k < 3
    ensures var t' := Acted(t, Sending(id, user, notices[k]), notices[k].at);
            id in t'.rows && RoundRow(t'.rows[id], first, notices, k + 1)
  {
    assert k > 0 ==> notices[k-1].at + 60_000 <= notices[k].at;
    assert Challenges(notices, k + 1) == Challenges(notices, k) + {notices[k].challenge};
  }

  /** A round sends three notices and no more: with the cooldown observed and before the deadline, the first three
      requests are granted and every later one is refused, whatever the rounds before it used. */
  lemma {:induction false} RoundSendsThree(
      t: Store, id: string, user: string, start: int, notices: seq<Notice>, k: nat)
    requires id in t.rows && t.rows[id].user == user && FreshRound(t.rows[id], start)
    requires Spaced(notices, start) && k < |notices|
    ensures Hits(AfterNotices(t, id, user, notices[..k]), Sending(id, user, notices[k]), notices[k].at) <==> k < 3
  {
    RoundAfter(t, id, user, start, notices, k);
    NextNotice(AfterNotices(t, id, user, notices[..k]), id, user, t.rows[id], start, notices, k);
  }

  /** From a resumed binding the first notice can go out at once. */
  lemma ResumedCanSend(t: Store, id: string, user: string, version: nat, now: int, challenge: string)
    requires Hits(t, Resume(id, user, version, true), now)
    ensures Hits(Acted(t, Resume(id, user, version, true), now), Send(id, user, challenge, true), now)
  {
    ResumeStartsRound(t, id, user, version, now, true);
    RoundSendsThree(Acted(t, Resume(id, user, version, true), now), id, user, now, [Notice(now, challenge)], 0);
    assert [Notice(now, challenge)][..0] == [];
  }

  /** A second notice too soon, or one from the deadline on, is refused. */
  lemma TooSoonOrTooLate(t: Store, id: string, user: string, n: Notice, later: Notice, start: int)
    requires id in t.rows && t.rows[id].user == user && t.rows[id].deadline == Some(start + 600_000)
    requires Hits(t, Sending(id, user, n), n.at)
    ensures later.at < n.at + 60_000 || start + 600_000 <= later.at ==>
              !Hits(Acted(t, Sending(id, user, n), n.at), Sending(id, user, later), later.at)
  {
  }

  /** Within a round exactly the challenges it sent activate the binding, until the deadline and under the cap. */
  lemma {:induction false} SentChallengesActivate(
      t: Store, id: string, user: string, start: int, notices: seq<Notice>, receipt: string, challenge: string,
      now: int)
    requires id in t.rows && t.rows[id].user == user && FreshRound(t.rows[id], start) && Spaced(notices, start)
    ensures var t' := AfterNotices(t, id, user, notices);
            Hits(t', Activate(id, receipt, challenge, true), now) <==>
              && receipt == t.rows[id].receipt && now < start + 600_000 && |ActiveSet(t'.rows)| < 500
              && exists i :: 0 <= i < |notices| && i < 3 && notices[i].challenge == challenge
  {
    RoundAfter(t, id, user, start, notices, |notices|);
    assert notices[..|notices|] == notices;
    var n := Granted(|notices|);
    assert challenge in Challenges(notices, n) <==> exists i :: 0 <= i < n && notices[i].challenge == challenge;
  }

  // ---------------------------------------------------------------- how long an activation lasts

  /** An activated binding survives every sweep of the next 180 days, and none after them. */
  lemma ActivationLasts(
      t: Store, id: string, receipt: string, challenge: string, now: int, later: int, swept: set<string>)
    requires Hits(t, Activate(id, receipt, challenge, true), now) && id in swept
    ensures var rows := Acted(t, Activate(id, receipt, challenge, true), now).rows;
            var kept := AllStopped(rows, LeaseOver(rows, swept, later), later);
            && id in kept
            && kept[id].state == (if later < now + 180 * 86_400_000 then Active else Paused)
  {
  }

  /** Once paused, a binding keeps no challenge, so no notice of before activates it again. */
  lemma StoppedForgets(b: Binding, now: int)
    ensures b.state in {Pending, Active} ==> Stopped(b, now).state == Paused && Stopped(b, now).challenges == {}
    ensures b.state in {Paused, Gone} ==> Stopped(b, now) == b
  {
  }

  /** The account's renewal sets the lease of an active binding, and of no other, to 180 days from now. */
  lemma RenewalIsExact(t: Store, id: string, user: string, version: nat, now: int, allowed: bool)
    ensures Hits(t, Renew(id, user, version, allowed), now) <==>
              && id in t.rows && t.rows[id].user == user && t.rows[id].version == version && t.rows[id].state == Active
              && allowed
    ensures Hits(t, Renew(id, user, version, allowed), now) ==>
              Acted(t, Renew(id, user, version, allowed), now).rows ==
                t.rows[id := t.rows[id].(lease := Some(now + 180 * 86_400_000), updatedAt := now,
                                         version := t.rows[id].version + 1)]
  {
  }

  // ---------------------------------------------------------------- endpoints that are gone

  /** An endpoint the push service reports gone stops its binding at once, and no other. */
  lemma GoneIsExact(rows: map<string, Binding>, id: string, now: int, other: string)
    ensures var rows' := WithGone(rows, id, now);
            && rows'.Keys == rows.Keys
            && (id in rows ==> rows'[id].state == Gone)
            && (id in rows && rows[id].state != Gone ==> rows'[id].challenges == {} && rows'[id].goneAt == Some(now))
            && (other in rows && other != id ==> rows'[other] == rows[other])
  {
  }

  /** Nothing brings such a binding back: every action leaves it gone or deletes it. */
  lemma GoneStaysGone(t: Store, id: string, a: Action, now: int)
    requires id in t.rows && t.rows[id].state == Gone
    ensures id in Acted(t, a, now).rows ==> Acted(t, a, now).rows[id].state == Gone
    ensures id !in Acted(t, a, now).rows ==> a.Remove? && a.id == id && a.user == t.rows[id].user
  {
  }
}
