/** The `Index` class of `console/index/graph.py`: claims arrive in any order, resolution is lazy,
    and every answer is the one a build from scratch would give. */
module IndexClass {
  import opened Wrappers
  import opened Model
  import opened Merge
  import opened Passes
  import opened Graph
  import DutyWindow

  /** Merge every identifier's claims and place the result; false when two kinds share one. */
  method MergeAll(l: Ledger, place: (Entity, seq<Claim>) -> Entity) returns (ok: bool, rows: Rows)
    requires Sound(l)
    ensures ok == !Collides(l)
    ensures ok ==> rows.Keys == l.claims.Keys
    ensures ok ==> forall id :: id in rows ==> rows[id] == place(Resolve(l.claims[id]).entity, l.claims[id])
  {
    hide Resolve;
    rows := map[];
    for i := 0 to |l.ids|
      invariant forall id :: id in rows <==> id in l.ids[..i]
      invariant forall id :: id in rows ==>
        Resolve(l.claims[id]).Merged? && rows[id] == place(Resolve(l.claims[id]).entity, l.claims[id])
    {
      var claims := l.claims[l.ids[i]];
      var merged := Merge.Merge(claims);
      if merged == Collision {
        return false, rows;
      }
      rows := rows[l.ids[i] := place(merged.entity, claims)];
      assert l.ids[..i + 1] == l.ids[..i] + [l.ids[i]];
    }
    assert l.ids[..|l.ids|] == l.ids;
    ok := true;
  }

  lemma {:induction false} MergedIsReconciled(inp: Inputs, rows: Rows, now: real, parse: DutyWindow.Parser)
    requires Sound(inp.ledger) && !Collides(inp.ledger) && rows.Keys == inp.ledger.claims.Keys
    requires forall id :: id in rows ==>
      rows[id] ==
        Reconcile(Resolve(inp.ledger.claims[id]).entity, inp.ledger.claims[id], inp.cov, now, inp.factor, parse)
    ensures rows == Reconciled(inp, now, parse)
  {
    hide Reconcile, Resolve;
  }

  class Index {
    const parse: DutyWindow.Parser

    var ids: seq<string>
    var claims: map<string, seq<Claim>>

    var sawOkDiscovery: bool
    var discoveryScope: set<Pair>
    var sawFleetwideDiscovery: bool
    var unlimitedScope: set<Pair>
    var sawUnlimitedFleetwide: bool
    var horizonScope: map<Pair, real>
    var horizonFleetwide: Option<real>
    var sawOkDeclaration: bool

    var stalenessFactor: real
    var triage: map<string, Mark>

    var finalized: bool
    var entities: Rows
    var byKind: map<Kind, seq<Entity>>
    var landing: Option<Rows>

    var outgoing: Adjacency
    var incoming: Adjacency

    /** Every result added so far. */
    ghost var history: History
    /** The clock the last resolution read. */
    ghost var clock: real
    /** Every edge kept so far, in order of arrival. */
    ghost var edges: seq<Edge>
    /** What the cached landing model was computed from. */
    ghost var landingInputs: Inputs
    ghost var landingClock: real

    // ------------------------------------------------------------------- invariant

    function Seen(): Coverage
      reads `sawOkDiscovery, `sawOkDeclaration, `discoveryScope, `sawFleetwideDiscovery,
            `unlimitedScope, `sawUnlimitedFleetwide, `horizonScope, `horizonFleetwide
    {
      Coverage(sawOkDiscovery, sawOkDeclaration, discoveryScope, sawFleetwideDiscovery,
               unlimitedScope, sawUnlimitedFleetwide, horizonScope, horizonFleetwide)
    }

    function Current(): Inputs
      reads `ids, `claims, `stalenessFactor, `triage, `sawOkDiscovery, `sawOkDeclaration, `discoveryScope,
            `sawFleetwideDiscovery,
            `unlimitedScope, `sawUnlimitedFleetwide, `horizonScope, `horizonFleetwide
    {
      Inputs(Ledger(ids, claims), Seen(), stalenessFactor, triage)
    }

    ghost predicate Ingested()
      reads `ids, `claims, `history, `sawOkDiscovery, `sawOkDeclaration, `discoveryScope, `sawFleetwideDiscovery,
            `unlimitedScope, `sawUnlimitedFleetwide, `horizonScope, `horizonFleetwide
    {
      Ledger(ids, claims) == LedgerOf(history) && Seen() == CoverageOf(history)
    }

    /** A resolved index holds what a build from scratch gives, partitioned by kind. */
    ghost predicate Resolved()
      reads this
    {
      && Build(Current(), clock, parse) == Some(entities) && entities.Keys == claims.Keys
      && byKind == PartsOf(ids, entities)
    }

    ghost predicate Linked()
      reads `edges, `outgoing, `incoming
    {
      && outgoing == OutgoingOf(edges) && incoming == IncomingOf(edges)
      && forall e :: e in edges ==> HasRelation(e)
    }

    /** A cached landing model is current in everything but the triage marks: `SetTriage` alone
        leaves it in place. */
    ghost predicate LandingHeld()
      reads `landing, `landingInputs, `landingClock
      reads `ids, `claims, `stalenessFactor, `triage, `sawOkDiscovery, `sawOkDeclaration, `discoveryScope,
            `sawFleetwideDiscovery,
            `unlimitedScope, `sawUnlimitedFleetwide, `horizonScope, `horizonFleetwide
    {
      landing.Some? ==>
        && Current() == landingInputs.(marks := triage)
        && Build(landingInputs, landingClock, parse) == landing
    }

    lemma {:induction false} LedgerStaysSound()
      requires Ingested()
      ensures Sound(Ledger(ids, claims))
    {
      LedgerIsSound(history);
    }

    ghost predicate Valid()
      reads this
    {
      Ingested() && (finalized ==> Resolved()) && Linked() && LandingHeld()
    }

    constructor (parse: DutyWindow.Parser)
      ensures Valid() && history == Start && edges == [] && !finalized && landing == None
      ensures this.parse == parse && stalenessFactor == 1.5 && triage == map[]
    {
      this.parse := parse;
      ids, claims := [], map[];
      sawOkDiscovery, discoveryScope, sawFleetwideDiscovery := false, {}, false;
      unlimitedScope, sawUnlimitedFleetwide := {}, false;
      horizonScope, horizonFleetwide, sawOkDeclaration := map[], None, false;
      stalenessFactor, triage := 1.5, map[];
      finalized, entities, byKind, landing := false, map[], map[], None;
      outgoing, incoming := map[], map[];
      history, clock, edges := Start, 0.0, [];
      landingInputs, landingClock := Inputs(Ledger([], map[]), NOTHING_SEEN, 1.5, map[]), 0.0;
    }

    method SetStalenessFactor(factor: real)
      requires Valid()
      modifies `stalenessFactor, `finalized, `landing
      ensures Valid()
      ensures Current() == old(Current()).(factor := factor) && !finalized && landing == None
    {
      hide Ingested, Linked, Build;
      stalenessFactor, finalized, landing := factor, false, None;
    }

    method SetTriage(marks: map<string, Mark>)
      requires Valid()
      modifies `triage, `finalized
      ensures Valid()
      ensures Current() == old(Current()).(marks := marks) && !finalized && landing == old(landing)
    {
      hide Ingested, Linked, Build;
      triage, finalized := marks, false;
    }

    // ---------------------------------------------------------------------- ingest

    method NoteDiscoveryHorizon(r: AdapterResult)
      requires r.ok && r.cls == Discovery
      modifies this`unlimitedScope, this`sawUnlimitedFleetwide, this`horizonScope, this`horizonFleetwide
      ensures Seen() == NoteHorizon(old(Seen()), r)
    {
      if r.horizonDays == None {
        if r.scope != [] {
          unlimitedScope := unlimitedScope + set p | p in r.scope;
        } else {
          sawUnlimitedFleetwide := true;
        }
        return;
      }
      var h := r.horizonDays.value;
      if r.scope == [] {
        horizonFleetwide := Some(Least(horizonFleetwide, h));
        return;
      }
      for i := 0 to |r.scope|
        invariant horizonScope == ShortenAll(old(horizonScope), r.scope[..i], h)
        invariant Seen() == old(Seen()).(horizon := horizonScope)
      {
        assert r.scope[..i + 1][..i] == r.scope[..i];
        horizonScope := horizonScope[r.scope[i] := Least(HorizonOf(horizonScope, r.scope[i]), h)];
      }
      assert r.scope[..|r.scope|] == r.scope;
    }

    method RecordClaims(r: AdapterResult)
      requires Sound(Ledger(ids, claims))
      modifies this`ids, this`claims
      ensures Ledger(ids, claims) == RecordFirst(old(Ledger(ids, claims)), r, |r.entities|)
      ensures Sound(Ledger(ids, claims))
    {
      for i := 0 to |r.entities|
        invariant Ledger(ids, claims) == RecordFirst(old(Ledger(ids, claims)), r, i)
        invariant Sound(Ledger(ids, claims))
      {
        RecordKeepsSound(Ledger(ids, claims), ClaimOf(r, r.entities[i]));
        var c := ClaimOf(r, r.entities[i]);
        if c.entity.id in claims {
          claims := claims[c.entity.id := claims[c.entity.id] + [c]];
        } else {
          ids, claims := ids + [c.entity.id], claims[c.entity.id := [c]];
        }
      }
    }

    /** `_add_edge`; false when the relation is unknown, which raises. */
    method AddEdge(e: Edge) returns (ok: bool)
      requires Linked()
      modifies this`outgoing, this`incoming, this`edges
      ensures Linked() && ok == HasRelation(e)
      ensures edges == if ok then old(edges) + [e] else old(edges)
    {
      ok := HasRelation(e);
      if ok {
        assert (edges + [e])[..|edges|] == edges;
        outgoing := Append(outgoing, e.source, e);
        incoming := Append(incoming, e.target, Reverse(e));
        edges := edges + [e];
      }
    }

    method AddEdges(es: seq<Edge>) returns (ok: bool)
      requires Linked()
      modifies this`outgoing, this`incoming, this`edges
      ensures Linked() && edges == old(edges) + KnownEdges(es)
      ensures ok == (KnownEdges(es) == es)
    {
      hide Linked, AllKnown, KnownEdges, HasRelation;
      NoneKnown(es);
      for i := 0 to |es|
        invariant Linked() && edges == old(edges) + es[..i] && AllKnown(es[..i])
      {
        ok := AddEdge(es[i]);
        if !ok {
          KnownUpTo(es, i);
          return;
        }
        OneMoreKnown(es, i);
        assert es[..i + 1] == es[..i] + [es[i]];
      }
      assert es[..|es|] == es;
      KnownUpTo(es, |es|);
      ok := true;
    }

    method NoteCoverage(r: AdapterResult)
      modifies this`sawOkDiscovery, this`sawOkDeclaration, this`discoveryScope, this`sawFleetwideDiscovery
      modifies this`unlimitedScope, this`sawUnlimitedFleetwide, this`horizonScope, this`horizonFleetwide
      ensures Seen() == Note(old(Seen()), r)
    {
      if r.ok {
        if r.cls == Discovery {
          sawOkDiscovery := true;
          if r.scope != [] {
            discoveryScope := discoveryScope + set p | p in r.scope;
          } else {
            sawFleetwideDiscovery := true;
          }
          NoteDiscoveryHorizon(r);
        } else if r.cls == Declaration {
          sawOkDeclaration := true;
        }
      }
    }

    method Ingest(r: AdapterResult)
      requires Ingested()
      modifies `ids, `claims, `history, `sawOkDiscovery, `sawOkDeclaration, `discoveryScope, `sawFleetwideDiscovery,
               `unlimitedScope, `sawUnlimitedFleetwide, `horizonScope, `horizonFleetwide
      ensures Ingested() && history == Then(old(history), r)
    {
      LedgerIsSound(history);
      NoteCoverage(r);
      RecordClaims(r);
      history := Then(history, r);
    }

    /** Any new claim invalidates the resolution and the landing model; an unknown relation raises
        once the claims and the edges before it are in. */
    method AddResult(r: AdapterResult) returns (ok: bool)
      requires Valid()
      modifies this
      ensures Valid() && history == Then(old(history), r) && edges == old(edges) + KnownEdges(r.edges)
      ensures ok == (KnownEdges(r.edges) == r.edges)
      ensures !finalized && landing == None && stalenessFactor == old(stalenessFactor) && triage == old(triage)
    {
      hide Ingested, Linked, Build, KnownEdges;
      finalized, landing := false, None;
      Ingest(r);
      ok := AddEdges(r.edges);
    }

    // --------------------------------------------------------------------- resolve

    method ReportedIds() returns (reported: set<string>)
      requires Ingested()
      ensures reported == Reported(claims)
    {
      LedgerIsSound(history);
      reported := {};
      for i := 0 to |ids|
        invariant forall id :: id in reported <==> id in ids[..i] && HasOwnReport(claims[id])
      {
        if HasOwnReport(claims[ids[i]]) {
          reported := reported + {ids[i]};
        }
        assert ids[..i + 1] == ids[..i] + [ids[i]];
      }
      assert ids[..|ids|] == ids;
    }

    method PartitionByKind(rows: Rows) returns (parts: map<Kind, seq<Entity>>)
      requires Ingested() && rows.Keys == claims.Keys
      ensures parts == PartsOf(ids, rows)
    {
      LedgerStaysSound();
      hide Ingested;
      parts := NoParts();
      for i := 0 to |ids|
        invariant parts == PartsOf(ids[..i], rows)
      {
        assert ids[..i + 1][..i] == ids[..i];
        parts := AppendPart(parts, rows[ids[i]]);
      }
      assert ids[..|ids|] == ids;
    }

    lemma {:induction false} AliasesKeepKeys(pairs: seq<Alias>, rows: Rows, reported: set<string>)
      ensures InheritAll(pairs, rows, reported).Some? ==> InheritAll(pairs, rows, reported).value.Keys == rows.Keys
    {
      if pairs != [] {
        AliasesKeepKeys(pairs[..|pairs| - 1], rows, reported);
      }
    }

    /** The passes of one build, in their order; None when a pass raises. */
    method Rebuild(now: real) returns (rows: Option<Rows>)
      requires Ingested()
      ensures rows == Build(Current(), now, parse)
      ensures rows.Some? ==> rows.value.Keys == claims.Keys
    {
      LedgerStaysSound();
      hide Ingested, Reconcile, Reconciled, Collides, InheritAll, AliasPairs,
           ArmAll, TriageAll, DutyWindow.Resolve, Reported;
      var cov, factor := Seen(), stalenessFactor;
      var ok, merged := MergeAll(Ledger(ids, claims),
        (e: Entity, cs: seq<Claim>) => Reconcile(e, cs, cov, now, factor, parse));
      if !ok {
        return None;
      }
      MergedIsReconciled(Current(), merged, now, parse);
      var onDuty := DutyWindow.ResolveDutyWindow(ids, merged, stalenessFactor, parse);
      var reported := ReportedIds();
      var aliased := ApplyAliasInheritance(ids, onDuty, reported);
      if aliased == None {
        return None;
      }
      AliasesKeepKeys(AliasPairs(ids, onDuty), onDuty, reported);
      var armed := ResolveEventTriggers(ids, aliased.value);
      var marked := ApplyTriage(ids, armed, triage);
      rows := Some(marked);
    }

    /** Resolve every identifier at `now`; false when resolution raises. */
    method Settle(now: real) returns (ok: bool)
      requires Ingested()
      modifies this`entities, this`byKind, this`clock
      ensures clock == now && ok == Build(Current(), now, parse).Some?
      ensures ok ==> Resolved()
    {
      hide Ingested, Build, PartsOf;
      clock := now;
      var rows := Rebuild(now);
      ok := rows.Some?;
      if ok {
        entities := rows.value;
        byKind := PartitionByKind(entities);
      }
    }

    /** Resolve unless already resolved; a raise leaves the index unresolved and its claims
        untouched. */
    method Finalize(now: real) returns (ok: bool)
      requires Valid()
      modifies this`finalized, this`entities, this`byKind, this`clock
      ensures Valid() && Current() == old(Current())
      ensures clock == if old(finalized) then old(clock) else now
      ensures ok == Build(Current(), clock, parse).Some? && ok == finalized
      ensures ok ==> Build(Current(), clock, parse) == Some(entities)
    {
      hide Ingested, Linked, LandingHeld, Build, PartsOf;
      if finalized {
        return true;
      }
      ok := Settle(now);
      finalized := ok;
    }

    // --------------------------------------------------------------------- queries

    /** `entity(id)`: the row a build from scratch at the resolving clock would hold. */
    method EntityOf(id: string, now: real) returns (ok: bool, row: Option<Entity>)
      requires Valid()
      modifies this`finalized, this`entities, this`byKind, this`clock
      ensures Valid() && Current() == old(Current())
      ensures clock == if old(finalized) then old(clock) else now
      ensures ok == Build(Current(), clock, parse).Some?
      ensures ok ==> var rows := Build(Current(), clock, parse).value;
        row == if id in rows then Some(rows[id]) else None
    {
      ok := Finalize(now);
      row := if ok && id in entities then Some(entities[id]) else None;
    }

    /** `of_kind(kind)`: exactly the rows of that kind, in ingest order. */
    method RowsOfKind(kind: Kind, now: real) returns (ok: bool, rows: seq<Entity>)
      requires Valid()
      modifies this`finalized, this`entities, this`byKind, this`clock
      ensures Valid() && Current() == old(Current())
      ensures clock == if old(finalized) then old(clock) else now
      ensures ok == Build(Current(), clock, parse).Some?
      ensures ok ==> Build(Current(), clock, parse).value.Keys == claims.Keys
      ensures ok ==> rows == OfKind(ids, Build(Current(), clock, parse).value, kind)
    {
      ok := Finalize(now);
      if ok {
        PartsMeaning(ids, entities, kind);
      }
      rows := if ok && kind in byKind then byKind[kind] else [];
    }

    /** `landing_model()`: computed on first read, then kept. After `SetTriage` it still shows the
        marks it was computed with, and nothing else about it is old. */
    method LandingModel(now: real) returns (ok: bool, model: Rows)
      requires Valid()
      modifies `finalized, `entities, `byKind, `clock, `landing, `landingInputs, `landingClock
      ensures Valid() && Current() == old(Current())
      ensures old(landing).Some? ==> ok && landing == old(landing)
      ensures old(landing).Some? ==> landingInputs == old(landingInputs) && landingClock == old(landingClock)
      ensures ok && old(landing).None? ==> landingInputs == Current() && landingClock == clock
      ensures ok ==> landing == Some(model) && Current() == landingInputs.(marks := triage)
      ensures ok ==> Build(landingInputs, landingClock, parse) == Some(model)
    {
      hide Ingested, Linked, Build, PartsOf;
      if landing.None? {
        ok := Finalize(now);
        if !ok {
          return ok, map[];
        }
        landing, landingInputs, landingClock := Some(entities), Current(), clock;
      }
      ok, model := true, landing.value;
    }

    /** `related(id)`: what `id` points at, then what points at it. */
    method Related(id: string) returns (touching: seq<Edge>)
      requires Valid()
      ensures touching == From(edges, id) + Onto(edges, id)
      ensures forall e :: e in touching <==> Touching(edges, id, e)
    {
      AdjacencyMeaning(edges, id);
      forall e ensures e in From(edges, id) + Onto(edges, id) <==> Touching(edges, id, e) {
        TouchingIff(edges, id, e);
      }
      touching := At(outgoing, id) + At(incoming, id);
    }
  }
}
