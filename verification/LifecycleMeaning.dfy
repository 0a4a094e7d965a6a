/** Exactly when every rendered lifecycle has its declaration (`console/index/graph.py:383-414`). */
module LifecycleMeaning {
  import opened Wrappers
  import opened Model
  import opened Merge
  import opened Passes
  import opened Graph
  import opened CoverageMeaning
  import opened BuildMeaning
  import DutyWindow

  // ------------------------------------------------------------------ a lone claim's lifecycle

  lemma {:induction false} LifecycleIsRead(r: AdapterResult, e: Entity)
    ensures DeclaredOnly(ClaimOf(r, e).entity.state) ==> ClaimOf(r, e).reachable
  {
  }

  lemma {:induction false} LifecyclesInAreRead(r: AdapterResult, id: string, n: nat, c: Claim)
    requires n <= |r.entities| && c in AboutIn(r, id, n) && DeclaredOnly(c.entity.state)
    ensures c.reachable
  {
    hide ClaimOf, DeclaredOnly;
    LifecycleIsRead(r, r.entities[n - 1]);
    if c in AboutIn(r, id, n - 1) {
      LifecyclesInAreRead(r, id, n - 1, c);
    }
  }

  /** A source that could not be read proposes no lifecycle. */
  lemma {:induction false} LifecyclesAreRead(history: History, id: string, c: Claim)
    requires c in About(history, id) && DeclaredOnly(c.entity.state)
    ensures c.reachable
  {
    hide DeclaredOnly, AboutIn;
    if c in About(history.before, id) {
      LifecyclesAreRead(history.before, id, c);
    } else {
      LifecyclesInAreRead(history.last, id, |history.last.entities|, c);
    }
  }

  lemma {:induction false} LoneClaimIsOwnReport(claims: seq<Claim>)
    requires |claims| == 1 && claims[0].cls != Declaration && claims[0].reachable
    ensures HasOwnReport(claims)
  {
    assert DeclaredFacets(claims[..0]) == map[];
    assert claims[0] in claims;
  }

  lemma {:induction false} LifecycleIsPlaced(inp: Inputs, id: string, now: real, parse: DutyWindow.Parser)
    requires Sound(inp.ledger) && !Collides(inp.ledger) && id in inp.ledger.claims
    requires LoneLifecycle(inp.ledger.claims[id], inp.ledger.claims[id][0].entity.state, inp.cov.okDeclaration)
    ensures Placed(inp, id, now, parse) == inp.ledger.claims[id][0].entity
  {
    LoneClaimStands(inp.ledger.claims[id]);
    hide Resolve, ObservedSilent, SilenceSeconds;
  }

  lemma {:induction false} LifecycleIsNotFolded(rows: Rows, id: string, factor: real, parse: DutyWindow.Parser)
    requires id in rows && DeclaredOnly(rows[id].state)
    ensures DutyWindow.Resolve(rows, factor, parse)[id] == rows[id]
  {
  }

  lemma {:induction false} LifecycleIsNotArmed(rows: Rows, marks: map<string, Mark>, id: string)
    requires id in rows && DeclaredOnly(rows[id].state)
    ensures TriageAll(ArmAll(rows), marks)[id].state == rows[id].state
  {
    TriageKeeps(ArmAll(rows), marks);
    hide TriageAll, Keyed, ParentOf, EventDriven, TriggerOf;
  }

  /** A reported row placed in a declared-only state is rendered in it. */
  lemma {:induction false} PlacedLifecycleRenders(inp: Inputs, id: string, now: real, parse: DutyWindow.Parser)
    requires Sound(inp.ledger) && !Collides(inp.ledger) && Build(inp, now, parse).Some?
    requires id in inp.ledger.claims && id in Reported(inp.ledger.claims)
    requires DeclaredOnly(Placed(inp, id, now, parse).state)
    ensures id in Build(inp, now, parse).value
    ensures Build(inp, now, parse).value[id].state == Placed(inp, id, now, parse).state
  {
    BuildThroughAliases(inp, now, parse);
    var placed, onDuty := Reconciled(inp, now, parse), OnDuty(inp, now, parse);
    assert placed[id] == Placed(inp, id, now, parse);
    LifecycleIsNotFolded(placed, id, inp.factor, parse);
    hide Placed, Collides, Sound, Build, Reconciled, DutyWindow.Resolve;
    var pairs, reported := AliasPairs(inp.ledger.ids, onDuty), Reported(inp.ledger.claims);
    hide InheritAll, AliasPairs, TriageAll, ArmAll, DeclaredOnly, Reported;
    InheritAllKeepsRows(pairs, onDuty, reported);
    LifecycleIsNotArmed(InheritAll(pairs, onDuty, reported).value, inp.marks, id);
  }

  /** What only such a claim proposes is rendered, in that very state. */
  lemma {:induction false} LoneLifecycleRenders(
    history: History, factor: real, marks: map<string, Mark>, now: real, parse: DutyWindow.Parser,
    rows: Rows, id: string, state: StateValue)
    requires Build(InputsOf(history, factor, marks), now, parse) == Some(rows) && Lone(history, id, state)
    ensures id in rows && rows[id].state == state
  {
    var inp, c := InputsOf(history, factor, marks), About(history, id)[0];
    RegistryIsCovered(history);
    LedgerMeaning(history, id);
    LifecyclesAreRead(history, id, c);
    LoneClaimIsOwnReport(About(history, id));
    BuildIsSound(inp, now, parse);
    hide LedgerOf, CoverageOf, Build, About, HasOwnReport, RegistryRead, Placed, Collides, Sound;
    LifecycleIsPlaced(inp, id, now, parse);
    PlacedLifecycleRenders(inp, id, now, parse);
  }

  lemma {:induction false} BuildIsSound(inp: Inputs, now: real, parse: DutyWindow.Parser)
    requires Build(inp, now, parse).Some?
    ensures Sound(inp.ledger) && !Collides(inp.ledger)
  {
  }

  // ------------------------------------------------------------------------ the exact condition

  lemma {:induction false} LinkedOn(rows: Rows, a: string, m: string, b: string, n: nat)
    requires LinkedBy(rows, a, m, n) && Linked(rows, m, b)
    ensures Linked(rows, a, b)
    decreases n
  {
    hide Linked, Touch;
    if n > 0 {
      var next :| Touch(rows, a, next) && LinkedBy(rows, next, m, n - 1);
      LinkedOn(rows, next, m, b, n - 1);
      LinkedStep(rows, a, next, b);
    }
  }

  /** A declaration of `state` was made on `id` or on an alias-linked identifier. */
  ghost predicate DeclaredNear(history: History, rows: Rows, id: string, state: StateValue) {
    exists o :: Linked(rows, id, o) && DeclaresState(About(history, o), state)
  }

  /** Every rendered lifecycle has its declaration. */
  ghost predicate LifecyclesDeclared(history: History, rows: Rows) {
    forall id :: id in rows && DeclaredOnly(rows[id].state) ==> DeclaredNear(history, rows, id, rows[id].state)
  }

  /** Whatever only a lone claim proposes has one. */
  ghost predicate LoneLifecyclesDeclared(history: History, rows: Rows) {
    forall id, state :: Lone(history, id, state) ==> DeclaredNear(history, rows, id, state)
  }

  lemma {:induction false} NearerStill(history: History, rows: Rows, id: string, o: string, state: StateValue)
    requires Linked(rows, id, o) && DeclaredNear(history, rows, o, state)
    ensures DeclaredNear(history, rows, id, state)
  {
    var q :| Linked(rows, o, q) && DeclaresState(About(history, q), state);
    var n: nat :| LinkedBy(rows, id, o, n);
    hide Linked, LinkedBy;
    LinkedOn(rows, id, o, q, n);
  }

  /** Every rendered lifecycle was declared on an alias-linked identifier if and only if every lone
      one was. */
  lemma {:induction false} LifecyclesDeclaredIff(
    history: History, factor: real, marks: map<string, Mark>, now: real, parse: DutyWindow.Parser, rows: Rows)
    requires Build(InputsOf(history, factor, marks), now, parse) == Some(rows)
    ensures LifecyclesDeclared(history, rows) <==> LoneLifecyclesDeclared(history, rows)
  {
    hide Build, Lone, Linked, About, DeclaresState, InputsOf, DeclaredOnly;
    if LifecyclesDeclared(history, rows) {
      forall id, state | Lone(history, id, state) ensures DeclaredNear(history, rows, id, state) {
        LoneLifecycleRenders(history, factor, marks, now, parse, rows, id, state);
        LoneIsDeclaredOnly(history, id, state);
      }
    }
    if LoneLifecyclesDeclared(history, rows) {
      forall id | id in rows && DeclaredOnly(rows[id].state) ensures DeclaredNear(history, rows, id, rows[id].state) {
        LifecycleHasDeclaration(history, factor, marks, now, parse, rows, id);
        var o :| Linked(rows, id, o) && Proposed(history, rows, o, rows[id].state);
        if !DeclaresState(About(history, o), rows[id].state) {
          NearerStill(history, rows, id, o, rows[id].state);
        }
      }
    }
  }

  lemma {:induction false} LoneIsDeclaredOnly(history: History, id: string, state: StateValue)
    requires Lone(history, id, state)
    ensures DeclaredOnly(state)
  {
  }

  /** So where no source speaks so, every rendered lifecycle has its declaration. */
  lemma {:induction false} LifecycleIsAlwaysDeclared(
    history: History, factor: real, marks: map<string, Mark>, now: real, parse: DutyWindow.Parser,
    rows: Rows, id: string)
    requires forall o, state :: !Lone(history, o, state)
    requires Build(InputsOf(history, factor, marks), now, parse) == Some(rows)
    requires id in rows && DeclaredOnly(rows[id].state)
    ensures exists o :: Linked(rows, id, o) && DeclaresState(About(history, o), rows[id].state)
  {
    hide Build, Lone, Linked, About, DeclaresState, InputsOf;
    LifecyclesDeclaredIff(history, factor, marks, now, parse, rows);
    assert LoneLifecyclesDeclared(history, rows);
    assert DeclaredNear(history, rows, id, rows[id].state);
  }
}
