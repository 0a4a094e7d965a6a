/** What a whole build guarantees about the states it renders: the keys it holds, where a declared
    lifecycle comes from, what an alias and an armed row show (`console/index/graph.py:383-414`,
    `524-620`, `console/index/event_trigger.py:80-120`). */
module BuildMeaning {
  import opened Wrappers
  import opened Model
  import opened Merge
  import opened Passes
  import opened Graph
  import opened CoverageMeaning
  import opened AliasOrder
  import DutyWindow
  import MergeOrder

  // ---------------------------------------------------------------- what the ledger holds

  /** The claims about `id` among the first `n` entities of a result, in order. */
  function AboutIn(r: AdapterResult, id: string, n: nat): seq<Claim>
    requires n <= |r.entities|
  {
    if n == 0 then [] else
    AboutIn(r, id, n - 1) + (if r.entities[n - 1].id == id then [ClaimOf(r, r.entities[n - 1])] else [])
  }

  /** Every claim about `id`, in order of arrival. */
  function About(history: History, id: string): seq<Claim> {
    match history
    case Start => []
    case Then(before, r) => About(before, id) + AboutIn(r, id, |r.entities|)
  }

  function ClaimsAt(l: Ledger, id: string): seq<Claim> { if id in l.claims then l.claims[id] else [] }

  lemma {:induction false} ClaimKeepsId(r: AdapterResult, e: Entity)
    ensures ClaimOf(r, e).entity.id == e.id
  {
  }

  lemma {:induction false} RecordAt(l: Ledger, c: Claim, id: string)
    ensures ClaimsAt(Record(l, c), id) == ClaimsAt(l, id) + if c.entity.id == id then [c] else []
  {
  }

  lemma {:induction false} RecordFirstAt(l: Ledger, r: AdapterResult, n: nat, id: string)
    requires n <= |r.entities|
    ensures ClaimsAt(RecordFirst(l, r, n), id) == ClaimsAt(l, id) + AboutIn(r, id, n)
  {
    hide ClaimOf, Record, ClaimsAt;
    if n > 0 {
      RecordFirstAt(l, r, n - 1, id);
      assert ClaimOf(r, r.entities[n - 1]).entity.id == r.entities[n - 1].id by {
        ClaimKeepsId(r, r.entities[n - 1]);
      }
      RecordAt(RecordFirst(l, r, n - 1), ClaimOf(r, r.entities[n - 1]), id);
    }
  }

  /** The ledger files every claim under its own identifier, in order of arrival, and loses none. */
  lemma {:induction false} LedgerMeaning(history: History, id: string)
    ensures ClaimsAt(LedgerOf(history), id) == About(history, id)
    ensures id in LedgerOf(history).claims <==> About(history, id) != []
  {
    LedgerIsSound(history);
    if history.Then? {
      LedgerMeaning(history.before, id);
      RecordFirstAt(LedgerOf(history.before), history.last, |history.last.entities|, id);
    }
  }

  // --------------------------------------------------------------------- alias-linked rows

  /** One of the two declares itself an alias of the other. */
  predicate Touch(rows: Rows, a: string, b: string) {
    || (a in rows && b != "" && ParentOf(rows[a]) == b)
    || (b in rows && a != "" && ParentOf(rows[b]) == a)
  }

  ghost predicate LinkedBy(rows: Rows, a: string, b: string, n: nat)
    decreases n
  {
    if n == 0 then a == b else exists m :: Touch(rows, a, m) && LinkedBy(rows, m, b, n - 1)
  }

  /** `b` is `a` itself or reached from it through alias declarations. */
  ghost predicate Linked(rows: Rows, a: string, b: string) { exists n: nat :: LinkedBy(rows, a, b, n) }

  lemma {:induction false} LinkedStep(rows: Rows, a: string, m: string, b: string)
    requires Touch(rows, a, m) && Linked(rows, m, b)
    ensures Linked(rows, a, b)
  {
    var n: nat :| LinkedBy(rows, m, b, n);
    assert LinkedBy(rows, a, b, n + 1);
  }

  lemma {:induction false} LinkedSelf(rows: Rows, a: string)
    ensures Linked(rows, a, a)
  {
    assert LinkedBy(rows, a, a, 0);
  }

  /** The same rows as far as names and alias declarations go. */
  ghost predicate SameAliases(r1: Rows, r2: Rows) {
    && r1.Keys == r2.Keys
    && forall id :: id in r1 ==> ParentOf(r1[id]) == ParentOf(r2[id]) && r1[id].kind == r2[id].kind
  }

  lemma {:induction false} SameLinks(r1: Rows, r2: Rows, a: string, b: string, n: nat)
    requires SameAliases(r1, r2) && LinkedBy(r1, a, b, n)
    ensures LinkedBy(r2, a, b, n)
    decreases n
  {
    if n > 0 {
      var m :| Touch(r1, a, m) && LinkedBy(r1, m, b, n - 1);
      SameLinks(r1, r2, m, b, n - 1);
      assert Touch(r2, a, m);
    }
  }

  // --------------------------------------------------------------- declared lifecycles

  /** A lifecycle one source alone proposed, without being a registry; of what is no component, once
      a registry was read. */
  predicate LoneLifecycle(claims: seq<Claim>, state: StateValue, read: bool) {
    && |claims| == 1 && claims[0].cls != Declaration && claims[0].entity.state == state && DeclaredOnly(state)
    && (read ==> claims[0].entity.kind != Component)
  }

  ghost predicate DeclaresState(claims: seq<Claim>, state: StateValue) {
    exists c :: c in claims && c.cls == Declaration && c.entity.state == state
  }

  /** A declaration of `state` about `id`, or a lone lifecycle. */
  ghost predicate Origin(l: Ledger, read: bool, rows: Rows, id: string, state: StateValue) {
    && id in l.claims && id in rows
    && (DeclaresState(l.claims[id], state) || LoneLifecycle(l.claims[id], state, read))
  }

  /** Every declared-only state is accounted for by an origin its row is alias-linked to. */
  ghost predicate Accounted(l: Ledger, read: bool, rows: Rows) {
    forall id :: id in rows && DeclaredOnly(rows[id].state) ==>
      exists o :: Linked(rows, id, o) && Origin(l, read, rows, o, rows[id].state)
  }

  lemma {:induction false} CadenceKeepsLifecycle(e: Entity, now: real, factor: real, parse: DutyWindow.Parser)
    ensures var r := CadenceState(e, now, factor, parse);
      DeclaredOnly(r.state) ==> r == e
  {
  }

  lemma {:induction false} ReconcileKeepsKindAndAliases(
    e: Entity, claims: seq<Claim>, cov: Coverage, now: real, factor: real, parse: DutyWindow.Parser)
    ensures var r := Reconcile(e, claims, cov, now, factor, parse);
      && r.kind == e.kind && r.id == e.id
      && (DeclaredOnly(r.state) ==> r == e)
      && (DeclaredOnly(r.state) && e.kind == Component && cov.okDeclaration ==> Declared(claims))
  {
    CadenceKeepsLifecycle(e, now, factor, parse);
    hide LooksAbsent, StateName, ObservedSilent, SilenceSeconds;
  }

  lemma {:induction false} PlacedHasOrigin(inp: Inputs, id: string, now: real, parse: DutyWindow.Parser)
    requires Sound(inp.ledger) && !Collides(inp.ledger) && id in inp.ledger.claims
    requires DeclaredOnly(Placed(inp, id, now, parse).state)
    ensures Origin(inp.ledger, inp.cov.okDeclaration, Reconciled(inp, now, parse), id,
      Placed(inp, id, now, parse).state)
  {
    var claims := inp.ledger.claims[id];
    LoneClaimStands(claims);
    ReconcileKeepsKindAndAliases(Resolve(claims).entity, claims, inp.cov, now, inp.factor, parse);
    hide Reconcile, Resolve;
    if |claims| >= 2 {
      MergeOrder.LifecycleIsDeclared(claims);
    }
  }

  /** A single claim is returned as it came: no guard looks at it. */
  lemma {:induction false} LoneClaimStands(claims: seq<Claim>)
    requires claims != []
    ensures |claims| == 1 ==> Resolve(claims) == Merged(claims[0].entity)
    ensures |claims| == 1 && Declared(claims) ==> claims[0] in claims && claims[0].cls == Declaration
  {
  }

  lemma {:induction false} ReconciledIsAccounted(inp: Inputs, now: real, parse: DutyWindow.Parser)
    requires Sound(inp.ledger) && !Collides(inp.ledger)
    ensures Accounted(inp.ledger, inp.cov.okDeclaration, Reconciled(inp, now, parse))
  {
    var rows := Reconciled(inp, now, parse);
    forall id | id in rows && DeclaredOnly(rows[id].state)
      ensures exists o :: Linked(rows, id, o) && Origin(inp.ledger, inp.cov.okDeclaration, rows, o, rows[id].state)
    {
      PlacedHasOrigin(inp, id, now, parse);
      LinkedSelf(rows, id);
    }
  }

  /** A pass that keeps names and alias declarations and creates no declared-only state keeps the
      account. */
  lemma {:induction false} AccountCarries(l: Ledger, read: bool, r1: Rows, r2: Rows)
    requires Accounted(l, read, r1) && SameAliases(r1, r2)
    requires forall id :: id in r2 && DeclaredOnly(r2[id].state) ==> r1[id].state == r2[id].state
    ensures Accounted(l, read, r2)
  {
    forall id | id in r2 && DeclaredOnly(r2[id].state)
      ensures exists o :: Linked(r2, id, o) && Origin(l, read, r2, o, r2[id].state)
    {
      var o :| Linked(r1, id, o) && Origin(l, read, r1, o, r1[id].state);
      LinkCarries(r1, r2, id, o);
      assert Origin(l, read, r2, o, r2[id].state);
    }
  }

  lemma {:induction false} LinkCarries(r1: Rows, r2: Rows, a: string, b: string)
    requires SameAliases(r1, r2) && Linked(r1, a, b)
    ensures Linked(r2, a, b)
  {
    var n: nat :| LinkedBy(r1, a, b, n);
    SameLinks(r1, r2, a, b, n);
  }

  // ------------------------------------------------------- what each pass leaves as it was

  lemma {:induction false} FoldKeeps(e: Entity, rows: Rows, folded: set<string>, factor: real, parse: DutyWindow.Parser)
    ensures var r := DutyWindow.ResolveEntity(e, rows, folded, factor, parse);
      && r.kind == e.kind && r.id == e.id && ParentOf(r) == ParentOf(e) &&
        (DeclaredOnly(r.state) ==> r.state == e.state)
  {
  }

  lemma {:induction false} DutyKeeps(rows: Rows, factor: real, parse: DutyWindow.Parser)
    ensures var r := DutyWindow.Resolve(rows, factor, parse);
      && SameAliases(rows, r)
      && (forall id :: id in r && DeclaredOnly(r[id].state) ==> rows[id].state == r[id].state)
      && (Keyed(rows) ==> Keyed(r))
  {
    var r := DutyWindow.Resolve(rows, factor, parse);
    forall id | id in rows
      ensures r[id].kind == rows[id].kind && r[id].id == rows[id].id && ParentOf(r[id]) == ParentOf(rows[id])
      ensures DeclaredOnly(r[id].state) ==> r[id].state == rows[id].state
    {
      FoldKeeps(rows[id], rows, DutyWindow.Folded(rows, factor, parse), factor, parse);
    }
  }

  lemma {:induction false} ArmKeeps(rows: Rows)
    ensures var r := ArmAll(rows);
      && SameAliases(rows, r)
      && (forall id :: id in r && DeclaredOnly(r[id].state) ==> rows[id].state == r[id].state)
      && (Keyed(rows) ==> Keyed(r))
  {
  }

  lemma {:induction false} TrackedKeeps(e: Entity, mark: Mark)
    ensures var r := Tracked(e, mark);
      r.kind == e.kind && r.id == e.id && r.state == e.state && ParentOf(r) == ParentOf(e)
  {
  }

  lemma {:induction false} TriageKeeps(rows: Rows, marks: map<string, Mark>)
    ensures var r := TriageAll(rows, marks);
      && SameAliases(rows, r)
      && (forall id :: id in r ==> rows[id].state == r[id].state)
      && (Keyed(rows) ==> Keyed(r))
  {
    hide MarkFor, Tracked, ParentOf;
    forall id, mark | id in rows
      ensures var r := Tracked(rows[id], mark);
        r.kind == rows[id].kind && r.id == rows[id].id && r.state == rows[id].state && ParentOf(r) == ParentOf(rows[id])
    {
      TrackedKeeps(rows[id], mark);
    }
  }

  lemma {:induction false} InheritKeeps(e: Entity, other: Entity)
    ensures var r := Inherit(e, other);
      r.kind == e.kind && r.id == e.id && r.state == other.state && ParentOf(r) == ParentOf(e)
  {
  }

  // ------------------------------------------------------------------ alias inheritance

  /** Every pair stands for an alias declaration of `rows`. */
  ghost predicate Stated(pairs: seq<Alias>, rows: Rows) {
    forall i :: 0 <= i < |pairs| ==>
      pairs[i].id in rows && pairs[i].parent != "" && ParentOf(rows[pairs[i].id]) == pairs[i].parent
  }

  lemma {:induction false} AliasPairsAreStated(ids: seq<string>, rows: Rows)
    requires forall id :: id in ids ==> id in rows
    ensures Stated(AliasPairs(ids, rows), rows)
  {
    if ids != [] {
      AliasPairsAreStated(ids[..|ids| - 1], rows);
    }
  }

  lemma {:induction false} InheritOneIsAccounted(l: Ledger, read: bool, a: Alias, rows: Rows, reported: set<string>)
    requires Accounted(l, read, rows) && InheritOne(a, rows, reported).Some?
    requires a.id in rows && a.parent != "" && ParentOf(rows[a.id]) == a.parent
    ensures Accounted(l, read, InheritOne(a, rows, reported).value)
    ensures SameAliases(rows, InheritOne(a, rows, reported).value)
    ensures Keyed(rows) ==> Keyed(InheritOne(a, rows, reported).value)
  {
    var follower, now := Follower(a, rows, reported), InheritOne(a, rows, reported).value;
    if follower.Some? {
      var to, from := follower.value.0, follower.value.1;
      InheritKeeps(rows[to], rows[from]);
      hide ParentOf, Inherit, Origin, LinkedBy;
      assert SameAliases(rows, now);
      forall id | id in now && DeclaredOnly(now[id].state)
        ensures exists o :: Linked(now, id, o) && Origin(l, read, now, o, now[id].state)
      {
        var source := if id == to then from else id;
        assert rows[source].state == now[id].state;
        var o :| Linked(rows, source, o) && Origin(l, read, rows, o, rows[source].state);
        LinkCarries(rows, now, source, o);
        OriginCarries(l, read, rows, now, o, now[id].state);
        if id == to {
          assert Touch(now, to, from);
          LinkedStep(now, to, from, o);
        }
      }
    }
  }

  lemma {:induction false} OriginCarries(l: Ledger, read: bool, r1: Rows, r2: Rows, id: string, state: StateValue)
    requires SameAliases(r1, r2) && Origin(l, read, r1, id, state)
    ensures Origin(l, read, r2, id, state)
  {
  }

  lemma {:induction false} InheritAllIsAccounted(l: Ledger, read: bool, pairs: seq<Alias>, rows: Rows,
                                                 reported: set<string>)
    requires Accounted(l, read, rows) && Stated(pairs, rows) && InheritAll(pairs, rows, reported).Some?
    ensures Accounted(l, read, InheritAll(pairs, rows, reported).value)
    ensures SameAliases(rows, InheritAll(pairs, rows, reported).value)
    ensures Keyed(rows) ==> Keyed(InheritAll(pairs, rows, reported).value)
  {
    if pairs != [] {
      var n := |pairs| - 1;
      InheritAllIsAccounted(l, read, pairs[..n], rows, reported);
      assert pairs[n].id in rows;
      hide Accounted;
      InheritOneIsAccounted(l, read, pairs[n], InheritAll(pairs[..n], rows, reported).value, reported);
    }
  }

  lemma {:induction false} BuildIsAccounted(inp: Inputs, now: real, parse: DutyWindow.Parser)
    requires Build(inp, now, parse).Some?
    ensures Accounted(inp.ledger, inp.cov.okDeclaration, Build(inp, now, parse).value)
  {
    var rows, ids := Reconciled(inp, now, parse), inp.ledger.ids;
    ReconciledIsAccounted(inp, now, parse);
    DutyKeeps(rows, inp.factor, parse);
    var onDuty := DutyWindow.Resolve(rows, inp.factor, parse);
    AccountCarries(inp.ledger, inp.cov.okDeclaration, rows, onDuty);
    AliasPairsAreStated(ids, onDuty);
    var aliased := InheritAll(AliasPairs(ids, onDuty), onDuty, Reported(inp.ledger.claims)).value;
    InheritAllIsAccounted(inp.ledger, inp.cov.okDeclaration, AliasPairs(ids, onDuty), onDuty,
      Reported(inp.ledger.claims));
    ArmKeeps(aliased);
    AccountCarries(inp.ledger, inp.cov.okDeclaration, aliased, ArmAll(aliased));
    TriageKeeps(ArmAll(aliased), inp.marks);
    AccountCarries(inp.ledger, inp.cov.okDeclaration, ArmAll(aliased), TriageAll(ArmAll(aliased), inp.marks));
  }

  predicate ReadRegistry(r: AdapterResult) { r.ok && r.cls == Declaration }

  /** Some declaration pass has succeeded. */
  ghost predicate RegistryRead(history: History) { exists r :: history.Contains(r) && ReadRegistry(r) }

  /** Nothing but a lone claim proposes `state` of `id`. */
  ghost predicate Lone(history: History, id: string, state: StateValue) {
    LoneLifecycle(About(history, id), state, RegistryRead(history))
  }

  /** A declaration about `id` proposed `state`, or one source alone did. */
  ghost predicate Proposed(history: History, rows: Rows, id: string, state: StateValue) {
    id in rows && (DeclaresState(About(history, id), state) || Lone(history, id, state))
  }

  lemma {:induction false} OriginIsProposed(history: History, rows: Rows, id: string, state: StateValue)
    requires Origin(LedgerOf(history), RegistryRead(history), rows, id, state)
    ensures Proposed(history, rows, id, state)
  {
    LedgerMeaning(history, id);
    hide LedgerOf, About, RegistryRead;
  }

  /** What an index that was given `history` builds from. */
  function InputsOf(history: History, factor: real, marks: map<string, Mark>): Inputs {
    Inputs(LedgerOf(history), CoverageOf(history), factor, marks)
  }

  lemma {:induction false} RegistryIsCovered(history: History)
    ensures CoverageOf(history).okDeclaration <==> RegistryRead(history)
  {
    FlagsMeaning(history);
    hide CoverageOf;
    if CoverageOf(history).okDeclaration {
      var r :| history.Contains(r) && r.ok && r.cls == Declaration;
      assert ReadRegistry(r);
    }
  }

  /** A rendered lifecycle comes from a declaration of that very state on the row itself or on an
      alias-linked identifier. The one way round it is something whose only source is no registry and
      proposes that very state; once a declaration pass has succeeded, that is no component. */
  lemma {:induction false} LifecycleHasDeclaration(
    history: History, factor: real, marks: map<string, Mark>, now: real, parse: DutyWindow.Parser,
    rows: Rows, id: string)
    requires Build(InputsOf(history, factor, marks), now, parse) == Some(rows)
    requires id in rows && DeclaredOnly(rows[id].state)
    ensures exists o :: Linked(rows, id, o) && Proposed(history, rows, o, rows[id].state)
  {
    RegistryIsCovered(history);
    hide Build, LedgerOf, CoverageOf, Linked, Proposed, Origin, RegistryRead;
    BuildIsAccounted(InputsOf(history, factor, marks), now, parse);
    var o :| Linked(rows, id, o) && Origin(LedgerOf(history), RegistryRead(history), rows, o, rows[id].state);
    OriginIsProposed(history, rows, o, rows[id].state);
  }

  /** The rows the alias pass starts from. */
  ghost function OnDuty(inp: Inputs, now: real, parse: DutyWindow.Parser): Rows
    requires Sound(inp.ledger) && !Collides(inp.ledger)
  {
    DutyWindow.Resolve(Reconciled(inp, now, parse), inp.factor, parse)
  }

  /** The passes that follow the duty window. */
  ghost function Rest(ids: seq<string>, rows: Rows, reported: set<string>, marks: map<string, Mark>): Option<Rows>
    requires forall id :: id in ids ==> id in rows
  {
    match InheritAll(AliasPairs(ids, rows), rows, reported)
    case None => None
    case Some(aliased) => Some(TriageAll(ArmAll(aliased), marks))
  }

  lemma {:induction false} BuildThroughAliases(inp: Inputs, now: real, parse: DutyWindow.Parser)
    requires Sound(inp.ledger) && !Collides(inp.ledger)
    ensures Build(inp, now, parse) ==
      Rest(inp.ledger.ids, OnDuty(inp, now, parse), Reported(inp.ledger.claims), inp.marks)
  {
    hide InheritAll, AliasPairs, Reported, TriageAll, ArmAll, DutyWindow.Resolve, Reconciled;
  }

  /** Two identifiers: a component known only as an alias of `p`, and a run `p` that one source
      alone reports, in a state only a declaration may supply. */
  ghost predicate LendingRun(l: Ledger, a: string, p: string) {
    && a != p && p != "" && l.ids == [a, p] && l.claims.Keys == {a, p} && Sound(l)
    && l.claims[a] == [AliasClaim(a, p)] && l.claims[p] == [RunClaim(p)]
  }

  function AliasClaim(a: string, p: string): Claim {
    Claim(Entity(Component, a, UNREPORTED, Provenance(0, "registry", "", None),
                 map[Detail("alias_of") := TextValue(p)], map[], {}, {}), Declaration, "registry", true, [])
  }

  function RunClaim(p: string): Claim {
    Claim(Entity(Run, p, Known(State.Disabled), Provenance(1, "runs", "", None), map[], map[], {}, {}),
          Observation, "runs", true, [])
  }

  lemma {:induction false} LendingRunPlaced(l: Ledger, a: string, p: string, cov: Coverage, factor: real, now: real,
        parse: DutyWindow.Parser)
    requires LendingRun(l, a, p) && !cov.okDiscovery
    ensures !Collides(l)
    ensures Reconciled(Inputs(l, cov, factor, map[]), now, parse) ==
      map[a := AliasClaim(a, p).entity, p := RunClaim(p).entity]
    ensures Reported(l.claims) == {p}
  {
    var inp := Inputs(l, cov, factor, map[]);
    LoneClaimStands(l.claims[a]);
    LoneClaimStands(l.claims[p]);
    assert Declared(l.claims[a]) by {
      assert l.claims[a][0].cls == Declaration;
    }
    LoneReport(AliasClaim(a, p));
    LoneReport(RunClaim(p));
    hide Resolve, HasOwnReport, Declared;
    assert !ObservedSilent(AliasClaim(a, p).entity.fields);
    assert Placed(inp, a, now, parse) == AliasClaim(a, p).entity;
    assert Placed(inp, p, now, parse) == RunClaim(p).entity;
  }

  lemma {:induction false} LoneReport(c: Claim)
    requires c.cls != Discovery && c.reachable
    ensures HasOwnReport([c]) <==> c.cls != Declaration
  {
    assert [c][0] == c;
    hide DeclaredFacets;
  }

  lemma {:induction false} NothingMissedNothingFolds(rows: Rows, factor: real, parse: DutyWindow.Parser)
    requires forall id :: id in rows ==> rows[id].state != Known(Missed)
    ensures DutyWindow.Resolve(rows, factor, parse) == rows
  {
    hide DutyWindow.Revisits, DutyWindow.AnchorOf;
    assert DutyWindow.Folded(rows, factor, parse) == {};
  }

  /** An alias of such a run is rendered DISABLED although no declaration anywhere says so. */
  lemma {:induction false} LendingRunBuilds(l: Ledger, a: string, p: string, cov: Coverage, factor: real,
                                                    now: real, parse: DutyWindow.Parser)
    requires LendingRun(l, a, p) && cov.okDeclaration && !cov.okDiscovery
    ensures var b := Build(Inputs(l, cov, factor, map[]), now, parse);
      b.Some? && a in b.value && b.value[a].kind == Component && b.value[a].state == Known(State.Disabled)
    ensures forall id, c :: id in l.claims && c in l.claims[id] && c.cls == Declaration ==>
      !DeclaredOnly(c.entity.state)
  {
    var rows := map[a := AliasClaim(a, p).entity, p := RunClaim(p).entity];
    LendingRunPlaced(l, a, p, cov, factor, now, parse);
    NobodyDeclaresIt(l, a, p);
    assert l.ids == [a, p] && Sound(l);
    NothingMissedNothingFolds(rows, factor, parse);
    LendingPairs(a, p);
    LendingInherits(a, p);
    var inp := Inputs(l, cov, factor, map[]);
    hide Build, Reconciled, Reported, Collides, DutyWindow.Resolve, ArmAll, TriageAll, LendingRun, InheritAll,
          AliasPairs, Sound;
    BuildThroughAliases(inp, now, parse);
    DisabledStays(InheritAll([Alias(a, p)], rows, {p}).value, a);
  }

  /** A registry that declares one component, an alias of `p`, and a source that reports the run `p`
      DISABLED. */
  function LendingHistory(a: string, p: string): History {
    var registry := AdapterResult("registry", true, Declaration, [AliasClaim(a, p).entity], [], [], None, None);
    var runs := AdapterResult("runs", true, Observation, [RunClaim(p).entity], [], [], None, None);
    Then(Then(Start, registry), runs)
  }

  lemma {:induction false} LendingCoverage(a: string, p: string)
    ensures CoverageOf(LendingHistory(a, p)).okDeclaration && !CoverageOf(LendingHistory(a, p)).okDiscovery
    ensures RegistryRead(LendingHistory(a, p))
  {
    var history := LendingHistory(a, p);
    var registry, runs := history.before.last, history.last;
    assert registry.ok && registry.cls == Declaration && runs.cls == Observation && history.before.before == Start;
    FlagsMeaning(history);
    hide CoverageOf, AliasClaim, RunClaim, LendingHistory;
    assert history.before.Contains(registry) && history.Contains(registry) && ReadRegistry(registry);
    forall r | history.Contains(r) ensures r == registry || r == runs {
      assert r == runs || history.before.Contains(r);
      assert !history.before.before.Contains(r);
    }
  }

  lemma {:induction false} OneEntity(l: Ledger, r: AdapterResult, e: Entity)
    requires r.entities == [e]
    ensures RecordFirst(l, r, |r.entities|) == Record(l, ClaimOf(r, e))
  {
    hide ClaimOf, Record;
    assert RecordFirst(l, r, 0) == l;
  }

  lemma {:induction false} NewIdentifier(l: Ledger, c: Claim)
    requires c.entity.id !in l.claims
    ensures Record(l, c) == Ledger(l.ids + [c.entity.id], l.claims[c.entity.id := [c]])
  {
  }

  /** The ledger once a result that makes one new claim, and no other about its identifier, is in. */
  lemma {:induction false} NewClaim(before: History, r: AdapterResult, c: Claim)
    requires r.entities == [c.entity] && ClaimOf(r, c.entity) == c && c.entity.id !in LedgerOf(before).claims
    ensures var l := LedgerOf(before);
      LedgerOf(Then(before, r)) == Ledger(l.ids + [c.entity.id], l.claims[c.entity.id := [c]])
  {
    hide ClaimOf, Record, RecordFirst;
    OneEntity(LedgerOf(before), r, c.entity);
    NewIdentifier(LedgerOf(before), c);
  }

  lemma {:induction false} AsFiled(a: string, p: string)
    ensures var history := LendingHistory(a, p);
      && history.Then? && history.before.Then? && history.before.before == Start
      && history.before.last.entities == [AliasClaim(a, p).entity] && history.last.entities == [RunClaim(p).entity]
      && ClaimOf(history.before.last, AliasClaim(a, p).entity) == AliasClaim(a, p)
      && ClaimOf(history.last, RunClaim(p).entity) == RunClaim(p)
  {
  }

  lemma {:induction false} LendingLedger(a: string, p: string)
    requires a != p && p != ""
    ensures LendingRun(LedgerOf(LendingHistory(a, p)), a, p)
  {
    var history := LendingHistory(a, p);
    LedgerIsSound(history);
    AsFiled(a, p);
    NamesKept(a, p);
    assert LedgerOf(Start) == Ledger([], map[]);
    hide AliasClaim, RunClaim, ClaimOf, Sound, LedgerOf, LendingHistory;
    NewClaim(Start, history.before.last, AliasClaim(a, p));
    assert LedgerOf(history.before) == Ledger([a], map[a := [AliasClaim(a, p)]]);
    NewClaim(history.before, history.last, RunClaim(p));
    assert [a] + [p] == [a, p];
  }

  lemma {:induction false} NamesKept(a: string, p: string)
    ensures AliasClaim(a, p).entity.id == a && RunClaim(p).entity.id == p
  {
  }

  /** The exception is real: from these two results, whatever the clock and the factor, the alias is
      rendered DISABLED, and no declaration was made of it. */
  lemma {:induction false} LoneRunLendsItsLifecycle(a: string, p: string, factor: real, now: real,
                                                    parse: DutyWindow.Parser)
    requires a != p && p != ""
    ensures RegistryRead(LendingHistory(a, p))
    ensures var b := Build(InputsOf(LendingHistory(a, p), factor, map[]), now, parse);
      b.Some? && a in b.value && b.value[a].kind == Component && b.value[a].state == Known(State.Disabled)
    ensures forall id :: !DeclaresState(About(LendingHistory(a, p), id), Known(State.Disabled))
  {
    var history := LendingHistory(a, p);
    LendingLedger(a, p);
    LendingCoverage(a, p);
    hide LendingHistory, Build, LedgerOf, CoverageOf, LendingRun, AliasClaim, RunClaim, About;
    LendingRunBuilds(LedgerOf(history), a, p, CoverageOf(history), factor, now, parse);
    forall id ensures !DeclaresState(About(history, id), Known(State.Disabled)) {
      LedgerMeaning(history, id);
    }
  }

  lemma {:induction false} DisabledStays(rows: Rows, id: string)
    requires id in rows && rows[id].kind == Component && rows[id].state == Known(State.Disabled)
    ensures var r := TriageAll(ArmAll(rows), map[]);
      id in r && r[id].kind == Component && r[id].state == Known(State.Disabled)
  {
  }

  lemma {:induction false} NobodyDeclaresIt(l: Ledger, a: string, p: string)
    requires LendingRun(l, a, p)
    ensures forall id, c :: id in l.claims && c in l.claims[id] && c.cls == Declaration ==>
      !DeclaredOnly(c.entity.state)
  {
    assert forall id :: id in l.claims ==> id == a || id == p;
  }

  lemma {:induction false} LendingPairs(a: string, p: string)
    requires a != p && p != ""
    ensures AliasPairs([a, p], map[a := AliasClaim(a, p).entity, p := RunClaim(p).entity]) == [Alias(a, p)]
  {
    var rows := map[a := AliasClaim(a, p).entity, p := RunClaim(p).entity];
    assert [a, p][..1] == [a] && [a][..0] == [];
    assert ParentOf(rows[a]) == p && ParentOf(rows[p]) == "";
    hide ParentOf;
    assert AliasPairs([a], rows) == [Alias(a, p)];
  }

  lemma {:induction false} LendingInherits(a: string, p: string)
    requires a != p
    ensures var out := InheritAll([Alias(a, p)], map[a := AliasClaim(a, p).entity, p := RunClaim(p).entity], {p});
      out.Some? && a in out.value && out.value[a].kind == Component && out.value[a].state == Known(State.Disabled)
  {
    var rows := map[a := AliasClaim(a, p).entity, p := RunClaim(p).entity];
    assert [Alias(a, p)][..0] == [];
    assert InheritAll([], rows, {p}) == Some(rows);
  }

  // -------------------------------------------------------------------- one row per claimed id

  lemma {:induction false} ResolveKeepsId(claims: seq<Claim>, id: string)
    requires claims != [] && Resolve(claims).Merged? && forall c :: c in claims ==> c.entity.id == id
    ensures Resolve(claims).entity.id == id
  {
    PeersNeverEmpty(claims);
    if |claims| >= 2 {
      assert Ranked(claims)[0] in claims;
    }
  }

  lemma {:induction false} ReconciledIsKeyed(inp: Inputs, now: real, parse: DutyWindow.Parser)
    requires Sound(inp.ledger) && !Collides(inp.ledger)
    ensures Keyed(Reconciled(inp, now, parse))
  {
    var rows := Reconciled(inp, now, parse);
    forall id | id in rows ensures rows[id].id == id {
      var claims := inp.ledger.claims[id];
      ResolveKeepsId(claims, id);
      ReconcileKeepsKindAndAliases(Resolve(claims).entity, claims, inp.cov, now, inp.factor, parse);
      hide Resolve, Reconcile;
    }
  }

  lemma {:induction false} InheritAllKeepsRows(pairs: seq<Alias>, rows: Rows, reported: set<string>)
    requires InheritAll(pairs, rows, reported).Some?
    ensures var r := InheritAll(pairs, rows, reported).value;
      && r.Keys == rows.Keys
      && (forall id :: id in rows ==> r[id].id == rows[id].id && r[id].kind == rows[id].kind)
      && (forall id :: id in rows && id in reported ==> r[id] == rows[id])
  {
    if pairs != [] {
      InheritAllKeepsRows(pairs[..|pairs| - 1], rows, reported);
    }
  }

  /** A build holds one row for every identifier claimed, under its own name, and no others. */
  lemma {:induction false} OneRowPerClaimedId(history: History, factor: real, marks: map<string, Mark>,
                                              now: real, parse: DutyWindow.Parser, rows: Rows)
    requires Build(InputsOf(history, factor, marks), now, parse) == Some(rows)
    ensures forall id :: id in rows <==> About(history, id) != []
    ensures Keyed(rows)
  {
    var inp := InputsOf(history, factor, marks);
    var placed := Reconciled(inp, now, parse);
    ReconciledIsKeyed(inp, now, parse);
    DutyKeeps(placed, factor, parse);
    var onDuty := DutyWindow.Resolve(placed, factor, parse);
    var pairs, reported := AliasPairs(inp.ledger.ids, onDuty), Reported(inp.ledger.claims);
    InheritAllKeepsRows(pairs, onDuty, reported);
    ArmKeeps(InheritAll(pairs, onDuty, reported).value);
    TriageKeeps(ArmAll(InheritAll(pairs, onDuty, reported).value), marks);
    forall id ensures id in inp.ledger.claims <==> About(history, id) != [] {
      LedgerMeaning(history, id);
    }
  }

  // ----------------------------------------------------------------- what an alias renders

  /** The pass never rewrites a row that has a report of its own. */
  lemma {:induction false} ReportedRowsStand(ids: seq<string>, rows: Rows, reported: set<string>, id: string)
    requires Lists(ids, rows) && InheritAll(AliasPairs(ids, rows), rows, reported).Some?
    requires id in rows && id in reported
    ensures id in InheritAll(AliasPairs(ids, rows), rows, reported).value
    ensures InheritAll(AliasPairs(ids, rows), rows, reported).value[id] == rows[id]
  {
    InheritAllKeepsRows(AliasPairs(ids, rows), rows, reported);
  }

  /** `out` shows on `to` the state and as-of `from` had, as an inherited one. */
  predicate Renders(out: Rows, to: string, e: Entity) {
    && to in out && out[to].state == e.state && out[to].provenance.asOf == EffectiveAsOf(e)
    && Read(out[to].fields, Detail("alias_state")) == "inherited"
  }

  /** A pair that would rewrite `to`. */
  predicate Writes(a: Alias, rows: Rows, reported: set<string>, to: string) {
    Follower(a, rows, reported).Some? && Follower(a, rows, reported).value.0 == to
  }

  lemma {:induction false} InheritOneAt(a: Alias, rows: Rows, reported: set<string>, to: string)
    requires InheritOne(a, rows, reported).Some? && to in rows
    ensures var out := InheritOne(a, rows, reported).value;
      && out.Keys == rows.Keys
      && (Writes(a, rows, reported, to) ==> Renders(out, to, rows[Follower(a, rows, reported).value.1]))
      && (!Writes(a, rows, reported, to) ==> out[to] == rows[to])
  {
  }

  lemma {:induction false} FollowerIsFixed(a: Alias, r1: Rows, r2: Rows, reported: set<string>)
    requires r1.Keys == r2.Keys
    ensures Follower(a, r1, reported) == Follower(a, r2, reported)
  {
  }

  /** The last pair that writes a row from a reported one decides what the row renders. */
  lemma {:induction false} LastWriterWins(pairs: seq<Alias>, rows: Rows, reported: set<string>, to: string, n: nat)
    requires InheritAll(pairs, rows, reported).Some? && to in rows && n < |pairs|
    requires Writes(pairs[n], rows, reported, to) && Follower(pairs[n], rows, reported).value.1 in reported
    requires forall j :: n < j < |pairs| ==> !Writes(pairs[j], rows, reported, to)
    ensures Renders(InheritAll(pairs, rows, reported).value, to, rows[Follower(pairs[n], rows, reported).value.1])
  {
    var last := |pairs| - 1;
    var before := InheritAll(pairs[..last], rows, reported).value;
    InheritAllKeepsRows(pairs[..last], rows, reported);
    InheritOneAt(pairs[last], before, reported, to);
    FollowerIsFixed(pairs[last], rows, before, reported);
    hide InheritOne, Follower;
    if n < last {
      LastWriterWins(pairs[..last], rows, reported, to, n);
    }
  }

  /** A silent alias of a reported parent renders the parent: its state and its as-of. */
  lemma {:induction false} SilentAliasRendersParent(pairs: seq<Alias>, rows: Rows, reported: set<string>, n: nat)
    requires InheritAll(pairs, rows, reported).Some? && n < |pairs|
    requires pairs[n].id in rows && pairs[n].parent in rows && pairs[n].id !in reported && pairs[n].parent in reported
    requires forall j :: n < j < |pairs| ==> !Writes(pairs[j], rows, reported, pairs[n].id)
    ensures Renders(InheritAll(pairs, rows, reported).value, pairs[n].id, rows[pairs[n].parent])
    ensures pairs[n].parent in InheritAll(pairs, rows, reported).value
    ensures InheritAll(pairs, rows, reported).value[pairs[n].parent] == rows[pairs[n].parent]
  {
    LastWriterWins(pairs, rows, reported, pairs[n].id, n);
    InheritAllKeepsRows(pairs, rows, reported);
  }

  /** Two reported aliases of one silent parent, the second last. */
  lemma {:induction false} TwoAliases(a: Alias, b: Alias, rows: Rows, reported: set<string>)
    requires a.parent == b.parent && a.parent in rows && a.parent !in reported
    requires a.id in rows && b.id in rows && a.id in reported && b.id in reported
    requires InheritAll([a, b], rows, reported).Some?
    ensures InheritAll([a, b], rows, reported).value
      == rows[a.parent := Inherit(Inherit(rows[a.parent], rows[a.id]), rows[b.id])]
  {
    assert [a, b][..1] == [a] && [a][..0] == [];
    assert InheritAll([], rows, reported) == Some(rows);
    hide Inherit, WellFormed;
    assert InheritAll([a], rows, reported) == InheritOne(a, rows, reported);
  }

  /** A silent parent renders whichever of its reported aliases comes last in the map: the map's
      order is visible exactly when the two differ in state or as-of. */
  lemma {:induction false} SilentParentRendersLastAlias(
    a: Alias, b: Alias, rows: Rows, reported: set<string>)
    requires a.parent == b.parent && a.parent in rows && a.parent !in reported
    requires a.id in rows && b.id in rows && a.id in reported && b.id in reported
    requires InheritAll([a, b], rows, reported).Some? && InheritAll([b, a], rows, reported).Some?
    ensures Renders(InheritAll([a, b], rows, reported).value, a.parent, rows[b.id])
    ensures Renders(InheritAll([b, a], rows, reported).value, a.parent, rows[a.id])
    ensures InheritAll([a, b], rows, reported) == InheritAll([b, a], rows, reported) <==>
      rows[a.id].state == rows[b.id].state && EffectiveAsOf(rows[a.id]) == EffectiveAsOf(rows[b.id])
  {
    LastWriterWins([a, b], rows, reported, a.parent, 1);
    LastWriterWins([b, a], rows, reported, a.parent, 1);
    TwoAliases(a, b, rows, reported);
    TwoAliases(b, a, rows, reported);
    hide InheritAll, EffectiveAsOf, Inherit;
    if ReadsAlike(rows[a.id], rows[b.id]) {
      InheritAgain(rows[a.parent], rows[a.id], rows[b.id], rows[b.id]);
      InheritAgain(rows[a.parent], rows[b.id], rows[a.id], rows[a.id]);
    }
  }

  // ------------------------------------------------------------------------- armed rows

  /** A row turns ARMED exactly when it is a silent event-driven row whose anchor is intact, and
      the anchor still reads intact once the pass is over. */
  lemma {:induction false} ArmedHasIntactAnchor(rows: Rows, id: string)
    requires id in rows && rows[id].state != Known(State.Armed)
    ensures ArmAll(rows)[id].state == Known(State.Armed) <==>
      && HasComponentState(rows[id].kind) && rows[id].state == UNREPORTED && EventDriven(rows[id])
      && TriggerOf(rows[id]) != "" && TriggerOf(rows[id]) in rows
      && Intact(ArmAll(rows)[TriggerOf(rows[id])].state)
  {
    hide EventDriven, TriggerOf;
  }

  /** Arming never enables more arming: the pass is complete in one go. */
  lemma {:induction false} ArmAllIsIdempotent(rows: Rows)
    ensures ArmAll(ArmAll(rows)) == ArmAll(rows)
  {
    var out := ArmAll(rows);
    forall id | id in out ensures Passes.Armed(out[id], out).None? {
      ArmedOnce(rows, id);
    }
    hide Passes.Armed;
  }

  lemma {:induction false} ArmedOnce(rows: Rows, id: string)
    requires id in rows
    ensures Passes.Armed(ArmAll(rows)[id], ArmAll(rows)).None?
  {
    hide EventDriven, TriggerOf;
  }

  // ---------------------------------------------------------------------------- silence

  /** Nobody but a newer observation takes a miss back: once silence has outlasted the declared
      cadence it still has at any later instant. */
  lemma {:induction false} MissedStaysMissed(e: Entity, t: real, u: real, factor: real, parse: DutyWindow.Parser)
    requires t <= u && e.state != Known(Missed) && CadenceState(e, t, factor, parse).state == Known(Missed)
    ensures CadenceState(e, u, factor, parse).state == Known(Missed)
  {
    hide ObservedSilent, ObserverCadence;
  }
}
