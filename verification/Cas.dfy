/** Conditional commit: a guard statement decides, through SQLite's `changes()` register,
    whether the statements chained behind it take effect.  A D1 batch is one transaction, so
    only an SQL error rolls it back; a guard that finds no row does not. */
module Cas {

  type Positive = n: nat | n > 0 witness 1

  /** What one statement does to the database.  `direct` is what `changes()` reports afterwards;
      D1's own `meta.changes` also counts the rows written by triggers. */
  datatype Exec<S> =
    | SqlError
    | NoRows
    | Rows(state: S, direct: Positive, triggered: nat)

  datatype GuardVerb = UpdateVerb | DeleteVerb | OtherVerb

  datatype Effect<!S> =
    | Insert(rows: nat, insert: S -> Exec<S>)
    | Update(assignments: nat, update: S -> Exec<S>, allowZeroRowsIfLast: bool)
    | Delete(delete: S -> Exec<S>)
  {
    /** The statement without its `changes() = 1` predicate.  An insert that does not fail writes
        all of its rows; an insert with no rows is not valid SQL. */
    function Unconditional(s: S): Exec<S> {
      match this
      case Insert(rows, insert) =>
        if rows == 0 then SqlError else
          (match insert(s)
           case SqlError => SqlError
           case NoRows => SqlError
           case Rows(s', _, t) => Rows(s', rows, t))
      case Update(_, update, _) => update(s)
      case Delete(delete) => delete(s)
    }

    /** The statement as compiled: every row it would touch also needs `changes() = 1`. */
    function Chained(s: S, changes: nat): Exec<S> {
      if Insert? && rows == 0 then SqlError
      else if changes == 1 then Unconditional(s)
      else NoRows
    }

    predicate Optional() { Update? && allowZeroRowsIfLast }

    /** Least `meta.changes` the commit accepts once its guard has hit. */
    function Expected(): nat {
      if Insert? then rows else if Optional() then 0 else 1
    }
  }

  datatype Plan<!S> = Plan(
    preamble: seq<S -> Exec<S>>,
    verb: GuardVerb,
    guard: S -> Exec<S>,
    effects: seq<Effect<S>>)

  datatype Outcome =
    | Committed
    | ConditionMissed
    | Rejected        // an SQL error: the batch rolled back
    | InvalidPlan     // refused before the batch was sent
    | InvariantBroken // detected after the batch had been committed

  function Direct<S>(e: Exec<S>): nat { if e.Rows? then e.direct else 0 }
  function Meta<S>(e: Exec<S>): nat { if e.Rows? then e.direct + e.triggered else 0 }
  function StateAfter<S>(e: Exec<S>, s: S): S { if e.Rows? then e.state else s }

  // ---------------------------------------------------------------- specification

  datatype Batch<S> = Aborted | Done(state: S, metas: seq<nat>)

  function RunPreamble<S>(statements: seq<S -> Exec<S>>, s: S): Batch<S> {
    if statements == [] then Done(s, [])
    else
      var e := statements[0](s);
      if e.SqlError? then Aborted else RunPreamble(statements[1..], StateAfter(e, s))
  }

  /** The chain of effects, each reading the register its predecessor left. */
  function RunChain<S>(effects: seq<Effect<S>>, s: S, changes: nat): (b: Batch<S>)
    ensures b.Done? ==> |b.metas| == |effects|
  {
    if effects == [] then Done(s, [])
    else
      var e := effects[0].Chained(s, changes);
      if e.SqlError? then Aborted
      else
        var rest := RunChain(effects[1..], StateAfter(e, s), Direct(e));
        if rest.Aborted? then Aborted else Done(rest.state, [Meta(e)] + rest.metas)
  }

  /** An effect that touched one row lets the rest of the chain run. */
  lemma OneRowThen<S>(e: Effect<S>, rest: seq<Effect<S>>, s: S)
    requires e.Chained(s, 1).Rows? && e.Chained(s, 1).direct == 1
    ensures var after := RunChain(rest, e.Chained(s, 1).state, 1);
            RunChain([e] + rest, s, 1) ==
              if after.Aborted? then Aborted else Done(after.state, [Meta(e.Chained(s, 1))] + after.metas)
  {
    assert ([e] + rest)[1..] == rest;
  }

  lemma OneEffect<S>(e: Effect<S>, s: S)
    requires e.Chained(s, 1).Rows?
    ensures RunChain([e], s, 1) == Done(e.Chained(s, 1).state, [Meta(e.Chained(s, 1))])
  {
    assert [e][1..] == [];
  }

  predicate OptionalOnlyLast<S>(effects: seq<Effect<S>>) {
    forall i :: 0 <= i < |effects| - 1 ==> !effects[i].Optional()
  }

  predicate WellFormed<S>(plan: Plan<S>) {
    && plan.verb != OtherVerb
    && OptionalOnlyLast(plan.effects)
    && (forall i :: 0 <= i < |plan.effects| ==> plan.effects[i].Update? ==> plan.effects[i].assignments > 0)
  }

  predicate MetasOk<S>(effects: seq<Effect<S>>, metas: seq<nat>)
    requires |metas| == |effects|
  {
    forall i :: 0 <= i < |effects| ==> metas[i] >= effects[i].Expected()
  }

  predicate AllZero(metas: seq<nat>) { forall i :: 0 <= i < |metas| ==> metas[i] == 0 }

  /** The whole call: outcome together with the database it leaves. */
  function Commit<S>(plan: Plan<S>, s: S): (Outcome, S) {
    if !WellFormed(plan) then (InvalidPlan, s)
    else
      var pre := RunPreamble(plan.preamble, s);
      if pre.Aborted? then (Rejected, s)
      else
        var g := plan.guard(pre.state);
        if g.SqlError? then (Rejected, s)
        else
          var chain := RunChain(plan.effects, StateAfter(g, pre.state), Direct(g));
          if chain.Aborted? then (Rejected, s)
          else if Direct(g) > 1 then (InvariantBroken, chain.state)
          else if Direct(g) == 0 then
            (if AllZero(chain.metas) then ConditionMissed else InvariantBroken, chain.state)
          else
            (if MetasOk(plan.effects, chain.metas) then Committed else InvariantBroken, chain.state)
  }

  // ---------------------------------------------------------------- the imperative form

  class Database<S(!new)> {
    var state: S

    constructor (initial: S)
      ensures state == initial
    {
      state := initial;
    }

    /** Sends the batch and then reads its results; the fields change only if the batch did not fail. */
    method ConditionalCommit(plan: Plan<S>) returns (outcome: Outcome)
      modifies this
      ensures (outcome, state) == Commit(plan, old(state))
    {
      var valid := CheckPlan(plan);
      if !valid { return InvalidPlan; }
      var pre := SendPreamble(plan.preamble, state);
      if pre.Aborted? { return Rejected; }
      var g := plan.guard(pre.state);
      if g.SqlError? { return Rejected; }
      var batch := SendEffects(plan.effects, StateAfter(g, pre.state), Direct(g));
      if batch.Aborted? { return Rejected; }
      state := batch.state;
      if Direct(g) > 1 { return InvariantBroken; }
      var ok := CheckResults(plan.effects, batch.metas, Direct(g));
      return if !ok then InvariantBroken else if Direct(g) == 1 then Committed else ConditionMissed;
    }

    static method SendPreamble(statements: seq<S -> Exec<S>>, start: S) returns (batch: Batch<S>)
      ensures batch == RunPreamble(statements, start)
    {
      var s := start;
      var i := 0;
      while i < |statements|
        invariant 0 <= i <= |statements|
        invariant RunPreamble(statements, start) == RunPreamble(statements[i..], s)
      {
        var e := statements[i](s);
        if e.SqlError? { return Aborted; }
        s := StateAfter(e, s);
        i := i + 1;
      }
      return Done(s, []);
    }

    static method SendEffects(effects: seq<Effect<S>>, start: S, register: nat) returns (batch: Batch<S>)
      ensures batch == RunChain(effects, start, register)
    {
      var s, changes := start, register;
      var metas: seq<nat> := [];
      var i := 0;
      while i < |effects|
        invariant 0 <= i <= |effects|
        invariant Joined(metas, RunChain(effects[i..], s, changes)) == RunChain(effects, start, register)
      {
        var e := effects[i].Chained(s, changes);
        ChainStep(effects, i, s, changes, metas);
        if e.SqlError? { return Aborted; }
        s := StateAfter(e, s);
        changes := Direct(e);
        metas := metas + [Meta(e)];
        i := i + 1;
      }
      assert metas + [] == metas;
      return Done(s, metas);
    }

    /** Reads the reported row counts once the batch is in. */
    static method CheckResults(effects: seq<Effect<S>>, metas: seq<nat>, guardChanges: nat) returns (ok: bool)
      requires |metas| == |effects| && guardChanges <= 1
      ensures ok == if guardChanges == 0 then AllZero(metas) else MetasOk(effects, metas)
    {
      for i := 0 to |effects|
        invariant if guardChanges == 0 then forall j :: 0 <= j < i ==> metas[j] == 0
                  else forall j :: 0 <= j < i ==> metas[j] >= effects[j].Expected()
      {
        if guardChanges == 0 {
          if metas[i] != 0 { return false; }
        } else if metas[i] < effects[i].Expected() {
          return false;
        }
      }
      return true;
    }

    static method CheckPlan(plan: Plan<S>) returns (ok: bool)
      ensures ok == WellFormed(plan)
    {
      if plan.verb == OtherVerb { return false; }
      for i := 0 to |plan.effects|
        invariant forall j :: 0 <= j < i && j < |plan.effects| - 1 ==> !plan.effects[j].Optional()
        invariant forall j :: 0 <= j < i ==> plan.effects[j].Update? ==> plan.effects[j].assignments > 0
      {
        if plan.effects[i].Optional() && i != |plan.effects| - 1 { return false; }
        if plan.effects[i].Update? && plan.effects[i].assignments == 0 { return false; }
      }
      return true;
    }
  }

  ghost function Joined<S>(done: seq<nat>, rest: Batch<S>): Batch<S> {
    if rest.Aborted? then Aborted else Done(rest.state, done + rest.metas)
  }

  lemma ChainStep<S>(effects: seq<Effect<S>>, i: nat, s: S, changes: nat, metas: seq<nat>)
    requires i < |effects|
    ensures var e := effects[i].Chained(s, changes);
            Joined(metas, RunChain(effects[i..], s, changes)) ==
              if e.SqlError? then Aborted
              else Joined(metas + [Meta(e)], RunChain(effects[i+1..], StateAfter(e, s), Direct(e)))
  {
    var e := effects[i].Chained(s, changes);
    assert effects[i..][0] == effects[i] && effects[i..][1..] == effects[i+1..];
    var rest := RunChain(effects[i+1..], StateAfter(e, s), Direct(e));
    if rest.Done? { assert metas + ([Meta(e)] + rest.metas) == (metas + [Meta(e)]) + rest.metas; }
  }

  // ---------------------------------------------------------------- properties

  /** All effects in order, ignoring the register; None if one of them cannot run. */
  function ApplyAll<S>(effects: seq<Effect<S>>, s: S): Exec<S> {
    if effects == [] then NoRows
    else
      var e := effects[0].Unconditional(s);
      if e.SqlError? then SqlError
      else
        var rest := ApplyAll(effects[1..], StateAfter(e, s));
        if rest.SqlError? then SqlError
        else if rest.NoRows? then (if e.Rows? then Rows(e.state, 1, 0) else NoRows)
        else Rows(rest.state, 1, 0)
  }

  predicate NoEmptyInsert<S>(effects: seq<Effect<S>>) {
    forall i :: 0 <= i < |effects| ==> effects[i].Insert? ==> effects[i].rows > 0
  }

  /** A register other than 1 silences the whole remaining chain. */
  lemma {:induction false} BrokenChainIsSilent<S>(effects: seq<Effect<S>>, s: S, changes: nat)
    requires changes != 1
    ensures RunChain(effects, s, changes).Done? <==> NoEmptyInsert(effects)
    ensures RunChain(effects, s, changes).Done? ==>
              RunChain(effects, s, changes).state == s && AllZero(RunChain(effects, s, changes).metas)
  {
    if effects != [] {
      BrokenChainIsSilent(effects[1..], s, 0);
      assert NoEmptyInsert(effects) <==>
          (effects[0].Insert? ==> effects[0].rows > 0) && NoEmptyInsert(effects[1..]) by {
        assert forall i :: 0 <= i < |effects[1..]| ==> effects[1..][i] == effects[i+1];
        if NoEmptyInsert(effects[1..]) && (effects[0].Insert? ==> effects[0].rows > 0) {
          forall i | 0 <= i < |effects| ensures effects[i].Insert? ==> effects[i].rows > 0 {
            if i > 0 { assert effects[i] == effects[1..][i-1]; }
          }
        }
      }
    }
  }

  /** A guard that finds no row leaves exactly the state after the preamble, whatever the effects are. */
  lemma {:induction false} GuardMissIsNoOp<S>(plan: Plan<S>, s: S)
    requires WellFormed(plan) && NoEmptyInsert(plan.effects)
    requires RunPreamble(plan.preamble, s).Done?
    requires plan.guard(RunPreamble(plan.preamble, s).state).NoRows?
    ensures Commit(plan, s) == (ConditionMissed, RunPreamble(plan.preamble, s).state)
  {
    BrokenChainIsSilent(plan.effects, RunPreamble(plan.preamble, s).state, 0);
  }

  /** What a finished chain leaves is the work of some prefix of its effects. */
  lemma {:induction false} AppliedEffectsFormAPrefix<S>(effects: seq<Effect<S>>, s: S, changes: nat) returns (k: nat)
    requires RunChain(effects, s, changes).Done?
    ensures k <= |effects|
    ensures !ApplyAll(effects[..k], s).SqlError?
    ensures RunChain(effects, s, changes).state == StateAfter(ApplyAll(effects[..k], s), s)
    ensures forall i :: k <= i < |effects| ==> RunChain(effects, s, changes).metas[i] == 0
  {
    if effects == [] || changes != 1 {
      k := 0;
      if changes != 1 { BrokenChainIsSilent(effects, s, changes); }
    } else {
      var e := effects[0].Chained(s, changes);
      var k' := AppliedEffectsFormAPrefix(effects[1..], StateAfter(e, s), Direct(e));
      k := k' + 1;
      assert effects[..k][0] == effects[0] && effects[..k][1..] == effects[1..][..k'];
    }
  }

  /** Whether every effect is reached and passes its row check, stated on the effects themselves. */
  predicate Linked<S>(effects: seq<Effect<S>>, s: S) {
    effects == [] ||
    var e := effects[0].Unconditional(s);
    !e.SqlError? &&
    if |effects| == 1 then effects[0].Optional() || e.Rows?
    else
      e.Rows? &&
      (if e.direct == 1 then Linked(effects[1..], e.state)
       else |effects| == 2 && effects[1].Optional())
  }

  /** Exactly when a guard that hit one row is reported as committed.  The second disjunct of Linked
      is the one case in which the last effect is skipped although nothing reports it. */
  lemma {:induction false} CommittedExactly<S>(effects: seq<Effect<S>>, s: S)
    requires OptionalOnlyLast(effects) && NoEmptyInsert(effects)
    ensures (RunChain(effects, s, 1).Done? && MetasOk(effects, RunChain(effects, s, 1).metas)) <==> Linked(effects, s)
  {
    if effects != [] {
      var e := effects[0].Unconditional(s);
      var tail := effects[1..];
      assert forall i :: 0 <= i < |tail| ==> tail[i] == effects[i+1];
      if !e.SqlError? {
        var b := RunChain(tail, StateAfter(e, s), Direct(e));
        if b.Done? {
          assert MetasOk(effects, [Meta(e)] + b.metas) <==>
              Meta(e) >= effects[0].Expected() && MetasOk(tail, b.metas) by {
            var metas := [Meta(e)] + b.metas;
            forall i | 0 <= i < |tail| ensures metas[i+1] == b.metas[i] && effects[i+1] == tail[i] {}
            if MetasOk(effects, metas) {
              forall i | 0 <= i < |tail| ensures b.metas[i] >= tail[i].Expected() {
                assert metas[i+1] >= effects[i+1].Expected();
              }
            }
          }
        }
        if Direct(e) == 1 {
          CommittedExactly(tail, e.state);
        } else {
          BrokenChainIsSilent(tail, StateAfter(e, s), Direct(e));
          if tail != [] { assert tail[0] == effects[1]; }
        }
      }
    }
  }

  /** Every effect but the last touches exactly one row where it runs. */
  predicate SingleRow<S>(effects: seq<Effect<S>>, s: S) {
    |effects| <= 1 ||
    var e := effects[0].Unconditional(s);
    e.Rows? ==> e.direct == 1 && SingleRow(effects[1..], e.state)
  }

  lemma {:induction false} LinkedAppliesAll<S>(effects: seq<Effect<S>>, s: S)
    requires SingleRow(effects, s) && Linked(effects, s)
    ensures RunChain(effects, s, 1).Done?
    ensures !ApplyAll(effects, s).SqlError?
    ensures RunChain(effects, s, 1).state == StateAfter(ApplyAll(effects, s), s)
  {
    if effects != [] {
      var e := effects[0].Unconditional(s);
      if |effects| == 1 {
        assert effects[1..] == [];
      } else {
        LinkedAppliesAll(effects[1..], e.state);
      }
    }
  }

  /** The plan promises its last effect too: there is none, or it must not come out empty. */
  predicate NoOptionalTail<S>(effects: seq<Effect<S>>) {
    effects == [] || !effects[|effects| - 1].Optional()
  }

  /** Without an optional last effect, passing the row checks already means one row per non-last effect. */
  lemma {:induction false} LinkedIsSingleRow<S>(effects: seq<Effect<S>>, s: S)
    requires Linked(effects, s) && NoOptionalTail(effects)
    ensures SingleRow(effects, s)
  {
    if |effects| > 1 {
      LinkedIsSingleRow(effects[1..], effects[0].Unconditional(s).state);
    }
  }

  /** The last effect, run where it stands, would change nothing. */
  predicate TailIdle<S(==)>(effects: seq<Effect<S>>, s: S) {
    |effects| >= 2 &&
    var e := effects[0].Unconditional(s);
    e.Rows? &&
    if |effects| == 2 then
      var f := effects[1].Unconditional(e.state);
      !f.SqlError? && StateAfter(f, e.state) == e.state
    else TailIdle(effects[1..], e.state)
  }

  predicate AllApplied<S(==)>(effects: seq<Effect<S>>, s: S, left: S) {
    !ApplyAll(effects, s).SqlError? && left == StateAfter(ApplyAll(effects, s), s)
  }

  lemma ApplyLast<S>(effect: Effect<S>, s: S)
    ensures ApplyAll([effect], s).SqlError? <==> effect.Unconditional(s).SqlError?
    ensures StateAfter(ApplyAll([effect], s), s) == StateAfter(effect.Unconditional(s), s)
  {
    assert [effect][1..] == [];
  }

  /** Exactly when a chain that passed its row checks has applied all of its effects. */
  lemma {:induction false} LinkedAppliesAllIff<S>(effects: seq<Effect<S>>, s: S)
    requires Linked(effects, s)
    ensures RunChain(effects, s, 1).Done?
    ensures AllApplied(effects, s, RunChain(effects, s, 1).state) <==> SingleRow(effects, s) || TailIdle(effects, s)
  {
    if SingleRow(effects, s) {
      LinkedAppliesAll(effects, s);
    } else {
      var e := effects[0].Unconditional(s);
      var tail := effects[1..];
      if e.direct == 1 {
        LinkedAppliesAllIff(tail, e.state);
      } else {
        assert tail == [effects[1]];
        ApplyLast(effects[1], e.state);
        BrokenChainIsSilent(tail, e.state, e.direct);
      }
    }
  }

  lemma CommittedIsLinked<S>(plan: Plan<S>, s: S)
    requires Commit(plan, s).0 == Committed
    ensures RunPreamble(plan.preamble, s).Done?
    ensures var g := plan.guard(RunPreamble(plan.preamble, s).state);
            g.Rows? && Linked(plan.effects, g.state)
            && RunChain(plan.effects, g.state, 1) == Done(Commit(plan, s).1, RunChain(plan.effects, g.state, 1).metas)
  {
    var g := plan.guard(RunPreamble(plan.preamble, s).state);
    DoneHasNoEmptyInsert(plan.effects, g.state, 1);
    CommittedExactly(plan.effects, g.state);
  }

  /** Exactly when `committed` keeps the promise of the primitive, preamble, guard and all effects in order:
      every non-last effect touched one row, or the skipped last effect had nothing to do. */
  lemma CommittedMeansAllIff<S>(plan: Plan<S>, s: S)
    requires Commit(plan, s).0 == Committed
    ensures var g := plan.guard(RunPreamble(plan.preamble, s).state);
            g.Rows?
            && (AllApplied(plan.effects, g.state, Commit(plan, s).1)
                <==> SingleRow(plan.effects, g.state) || TailIdle(plan.effects, g.state))
  {
    CommittedIsLinked(plan, s);
    LinkedAppliesAllIff(plan.effects, plan.guard(RunPreamble(plan.preamble, s).state).state);
  }

  /** A plan without an optional last effect needs no hypothesis: `committed` means everything ran. */
  lemma CommittedMeansAll<S>(plan: Plan<S>, s: S)
    requires Commit(plan, s).0 == Committed && NoOptionalTail(plan.effects)
    ensures var g := plan.guard(RunPreamble(plan.preamble, s).state);
            g.Rows? && AllApplied(plan.effects, g.state, Commit(plan, s).1)
  {
    var g := plan.guard(RunPreamble(plan.preamble, s).state);
    CommittedIsLinked(plan, s);
    LinkedIsSingleRow(plan.effects, g.state);
    LinkedAppliesAll(plan.effects, g.state);
  }

  lemma {:induction false} DoneHasNoEmptyInsert<S>(effects: seq<Effect<S>>, s: S, changes: nat)
    requires RunChain(effects, s, changes).Done?
    ensures NoEmptyInsert(effects)
  {
    if effects != [] {
      var e := effects[0].Chained(s, changes);
      DoneHasNoEmptyInsert(effects[1..], StateAfter(e, s), Direct(e));
      forall i | 0 <= i < |effects| ensures effects[i].Insert? ==> effects[i].rows > 0 {
        if i > 0 { assert effects[i] == effects[1..][i-1]; }
      }
    }
  }

  /** A rejected or refused call leaves the initial state; every other outcome has been persisted. */
  lemma FailureRollsBack<S>(plan: Plan<S>, s: S)
    ensures Commit(plan, s).0 in {Rejected, InvalidPlan} ==> Commit(plan, s).1 == s
    ensures Commit(plan, s).0 == Committed ==>
              RunPreamble(plan.preamble, s).Done? && Direct(plan.guard(RunPreamble(plan.preamble, s).state)) == 1
    ensures Commit(plan, s).0 == ConditionMissed ==>
              RunPreamble(plan.preamble, s).Done? && Commit(plan, s).1 == RunPreamble(plan.preamble, s).state
  {
    var pre := RunPreamble(plan.preamble, s);
    if pre.Done? {
      var g := plan.guard(pre.state);
      if !g.SqlError? && RunChain(plan.effects, StateAfter(g, pre.state), Direct(g)).Done? && Direct(g) == 0 {
        BrokenChainIsSilent(plan.effects, pre.state, 0);
      }
    }
  }

  /** The hole in the row checks: an effect that hits two rows silences an optional tail whose own
      predicate does match, and the call still says `committed`. */
  lemma OptionalTailCanBeSkipped()
    ensures var two: Effect<int> := Update(1, (s: int) => Rows(s + 10, 2, 0), false);
            var tail: Effect<int> := Update(1, (s: int) => Rows(s + 100, 1, 0), true);
            var plan := Plan([], UpdateVerb, (s: int) => Rows(s + 1, 1, 0), [two, tail]);
            Commit(plan, 0) == (Committed, 11)
            && StateAfter(ApplyAll(plan.effects, 1), 1) == 111
  {
    var two: Effect<int> := Update(1, (s: int) => Rows(s + 10, 2, 0), false);
    var tail: Effect<int> := Update(1, (s: int) => Rows(s + 100, 1, 0), true);
    var effects := [two, tail];
    assert effects[1..] == [tail] && [tail][1..] == [];
    assert RunChain([tail], 11, 2) == Done(11, [0]);
    assert RunChain(effects, 1, 1) == Done(11, [2, 0]);
  }

  /** An invariant error is raised after the commit, so it never means "rolled back". */
  lemma InvariantErrorIsPersisted()
    ensures var plan := Plan([], UpdateVerb, (s: int) => Rows(s + 1, 2, 0), []);
            Commit(plan, 0) == (InvariantBroken, 1)
  {
    assert RunChain<int>([], 1, 2) == Done(1, []);
  }

  /** What decides a batch without SQL errors is how many rows the guard itself touched: none is a miss, one runs the
      chain, and more leave the guard's own work behind under an error. */
  lemma GuardDecides<S>(plan: Plan<S>, s: S)
    requires WellFormed(plan) && NoEmptyInsert(plan.effects) && RunPreamble(plan.preamble, s).Done?
    requires !plan.guard(RunPreamble(plan.preamble, s).state).SqlError?
    ensures var before := RunPreamble(plan.preamble, s).state;
            var g := plan.guard(before);
            && (g.NoRows? ==> Commit(plan, s) == (ConditionMissed, before))
            && (g.Rows? && g.direct == 1 ==> (Commit(plan, s).0 == Committed <==> Linked(plan.effects, g.state)))
            && (g.Rows? && g.direct > 1 ==> Commit(plan, s) == (InvariantBroken, g.state))
  {
    var g := plan.guard(RunPreamble(plan.preamble, s).state);
    if g.NoRows? {
      GuardMissIsNoOp(plan, s);
    } else if g.direct == 1 {
      CommittedExactly(plan.effects, g.state);
    } else {
      BrokenChainIsSilent(plan.effects, g.state, g.direct);
    }
  }

  function WithTriggered<S>(e: Exec<S>, triggered: nat): Exec<S> {
    if e.Rows? then Rows(e.state, e.direct, triggered) else e
  }

  /** Rows written by triggers of the guard count for nothing: with any number of them the call answers and leaves
      the same. */
  lemma GuardTriggersDoNotCount<S>(plan: Plan<S>, s: S, triggered: nat)
    ensures Commit(plan.(guard := (t: S) => WithTriggered(plan.guard(t), triggered)), s) == Commit(plan, s)
  {
  }
}
