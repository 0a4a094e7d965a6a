/** What a row shows apart from whom it credits, and that every pass after the merge depends on no
    more than that (`console/index/graph.py:383-414`). */
module Looks {
  import opened Wrappers
  import opened Model
  import opened Merge
  import opened Passes
  import opened AliasOrder
  import DutyWindow

  /** A provenance with nothing left of it but its stamp. */
  function Bare(p: Provenance): Provenance { Provenance(0, "", p.asOf, None) }

  /** A row as it reads: kind, name, state, fields, conflicts and as-of. */
  function Shown(e: Entity): Entity {
    e.(provenance := Bare(e.provenance), superseded := {},
       fieldSources := if AsOf in e.fieldSources then map[AsOf := Bare(e.fieldSources[AsOf])] else map[])
  }

  function ShownAll(rows: Rows): Rows { map id | id in rows :: Shown(rows[id]) }

  function ShownIf(rows: Option<Rows>): Option<Rows> {
    match rows
    case None => None
    case Some(r) => Some(ShownAll(r))
  }

  lemma {:induction false} ShownKeeps(e: Entity)
    ensures var s := Shown(e);
      && s.kind == e.kind && s.id == e.id && s.state == e.state && s.fields == e.fields
      && s.conflicts == e.conflicts && EffectiveAsOf(s) == EffectiveAsOf(e)
  {
  }

  // ------------------------------------------------------------------------------ reconcile

  lemma {:induction false} StateShown(e: Entity, f: Entity, state: StateValue)
    requires Shown(e) == Shown(f)
    ensures Shown(e.(state := state)) == Shown(f.(state := state))
  {
  }

  lemma {:induction false} CadenceShown(e: Entity, f: Entity, now: real, factor: real, parse: DutyWindow.Parser)
    requires Shown(e) == Shown(f) && ObserverCadence(e) == ObserverCadence(f)
    ensures Shown(CadenceState(e, now, factor, parse)) == Shown(CadenceState(f, now, factor, parse))
  {
    assert e.fields == f.fields && e.kind == f.kind && e.state == f.state;
    assert SilenceSeconds(e, now, parse) == SilenceSeconds(f, now, parse);
    hide ObservedSilent, SilenceSeconds, ObserverCadence, DutyWindow.CadenceKey, Positive, HasComponentState;
    StateShown(e, f, Known(Missed));
    StateShown(e, f, Known(Healthy));
    hide Shown;
  }

  lemma {:induction false} AbsentShown(e: Entity, f: Entity, p: seq<Claim>, q: seq<Claim>, cov: Coverage)
    requires Shown(e) == Shown(f) && Declared(p) == Declared(q) && Discovered(p) == Discovered(q)
    ensures LooksAbsent(e, p, cov) == LooksAbsent(f, q, cov)
  {
    assert e.fields == f.fields && e.state == f.state;
    hide Declared, Discovered;
    forall pair ensures Has(e, pair) == Has(f, pair) {
    }
    hide Has;
    assert WithinScope(e, cov) == WithinScope(f, cov);
    forall h: real ensures MayOutlast(e, h) == MayOutlast(f, h) {
    }
    hide MayOutlast;
    assert SilenceOutlivesHorizon(e, cov) == SilenceOutlivesHorizon(f, cov);
  }

  lemma {:induction false} UnregisteredShown(e: Entity, f: Entity)
    requires Shown(e) == Shown(f)
    ensures e.kind == f.kind && Shown(Passes.Unregistered(e)) == Shown(Passes.Unregistered(f))
  {
    hide StateName;
  }

  /** Where a row is placed shows in what it shows, given the observer's own lag. */
  lemma {:induction false} PlacedShown(e: Entity, f: Entity, p: seq<Claim>, q: seq<Claim>, cov: Coverage,
                                       now: real, factor: real, parse: DutyWindow.Parser)
    requires Shown(e) == Shown(f) && ObserverCadence(e) == ObserverCadence(f)
    requires Declared(p) == Declared(q) && Discovered(p) == Discovered(q)
    ensures Shown(Reconcile(e, p, cov, now, factor, parse)) == Shown(Reconcile(f, q, cov, now, factor, parse))
  {
    CadenceShown(e, f, now, factor, parse);
    AbsentShown(e, f, p, q, cov);
    StateShown(e, f, Known(Absent));
    UnregisteredShown(e, f);
    hide LooksAbsent, CadenceState, Declared, Discovered, Passes.Unregistered, ObserverCadence, Shown;
  }

  // ----------------------------------------------------------------------------- duty window

  lemma {:induction false} SameChainShown(rows: Rows, seen: set<string>, id: string)
    ensures DutyWindow.Revisits(ShownAll(rows), seen, id) == DutyWindow.Revisits(rows, seen, id)
  {
    forall x | x in rows ensures DutyWindow.AnchorOf(ShownAll(rows)[x]) == DutyWindow.AnchorOf(rows[x]) {
      ShownKeeps(rows[x]);
    }
    hide Shown, DutyWindow.AnchorOf;
    DutyWindow.SameAnchorsSameChain(rows, ShownAll(rows), seen, id);
  }

  lemma {:induction false} OffDutyShown(e: Entity, rows: Rows, factor: real, parse: DutyWindow.Parser)
    ensures DutyWindow.OffDuty(Shown(e), ShownAll(rows), factor, parse) ==
      match DutyWindow.OffDuty(e, rows, factor, parse) case None => None case Some(r) => Some(Shown(r))
  {
    var anchor := DutyWindow.AnchorOf(e);
    ShownKeeps(e);
    SameChainShown(rows, {e.id}, e.id);
    if anchor in rows {
      ShownKeeps(rows[anchor]);
    }
    hide DutyWindow.Revisits, EffectiveAsOf, Positive;
  }

  lemma {:induction false} ResolvedShown(e: Entity, rows: Rows, folded: set<string>,
                                         factor: real, parse: DutyWindow.Parser)
    ensures DutyWindow.ResolveEntity(Shown(e), ShownAll(rows), folded, factor, parse)
      == Shown(DutyWindow.ResolveEntity(e, rows, folded, factor, parse))
  {
    OffDutyShown(e, rows, factor, parse);
    ShownKeeps(e);
    hide DutyWindow.OffDuty;
  }

  lemma {:induction false} DutyShown(rows: Rows, factor: real, parse: DutyWindow.Parser)
    ensures DutyWindow.Resolve(ShownAll(rows), factor, parse) == ShownAll(DutyWindow.Resolve(rows, factor, parse))
  {
    var folded := DutyWindow.Folded(rows, factor, parse);
    forall id | id in rows
      ensures id in DutyWindow.Folded(ShownAll(rows), factor, parse) <==> id in folded
      ensures DutyWindow.ResolveEntity(ShownAll(rows)[id], ShownAll(rows), folded, factor, parse)
        == Shown(DutyWindow.ResolveEntity(rows[id], rows, folded, factor, parse))
    {
      OffDutyShown(rows[id], rows, factor, parse);
      ResolvedShown(rows[id], rows, folded, factor, parse);
      hide DutyWindow.OffDuty, DutyWindow.ResolveEntity, Shown;
    }
    hide DutyWindow.OffDuty, DutyWindow.ResolveEntity, Shown;
    assert DutyWindow.Folded(ShownAll(rows), factor, parse) == folded;
  }

  // --------------------------------------------------------------------------------- aliases

  lemma {:induction false} InheritShown(e: Entity, other: Entity)
    ensures Inherit(Shown(e), Shown(other)) == Shown(Inherit(e, other))
    ensures WellFormed(Shown(e)) == WellFormed(e)
  {
    ShownKeeps(other);
  }

  lemma {:induction false} FollowerShown(a: Alias, rows: Rows, reported: set<string>)
    ensures Follower(a, ShownAll(rows), reported) == Follower(a, rows, reported)
  {
  }

  lemma {:induction false} InheritOneShown(a: Alias, rows: Rows, reported: set<string>)
    ensures InheritOne(a, ShownAll(rows), reported) == ShownIf(InheritOne(a, rows, reported))
  {
    FollowerShown(a, rows, reported);
    if Follower(a, rows, reported).Some? {
      var (to, from) := Follower(a, rows, reported).value;
      InheritShown(rows[to], rows[from]);
      var e := Inherit(rows[to], rows[from]);
      InheritShown(e, e);
      assert ShownAll(rows[to := e]) == ShownAll(rows)[to := Shown(e)];
      hide Inherit, Shown, WellFormed, Follower, ShownAll;
      assert Inherit(Shown(rows[to]), Shown(rows[from])) == Shown(e);
    }
  }

  lemma {:induction false} InheritAllShown(pairs: seq<Alias>, rows: Rows, reported: set<string>)
    ensures InheritAll(pairs, ShownAll(rows), reported) == ShownIf(InheritAll(pairs, rows, reported))
  {
    hide InheritOne, ShownAll;
    if pairs != [] {
      var n := |pairs| - 1;
      InheritAllShown(pairs[..n], rows, reported);
      if InheritAll(pairs[..n], rows, reported).Some? {
        InheritOneShown(pairs[n], InheritAll(pairs[..n], rows, reported).value, reported);
      }
    }
  }

  lemma {:induction false} PairsShown(ids: seq<string>, rows: Rows)
    requires forall id :: id in ids ==> id in rows
    ensures AliasPairs(ids, ShownAll(rows)) == AliasPairs(ids, rows)
  {
    if ids != [] {
      PairsShown(ids[..|ids| - 1], rows);
      ShownKeeps(rows[ids[|ids| - 1]]);
    }
  }

  lemma {:induction false} AliasesShown(rows: Rows)
    ensures AliasesOf(ShownAll(rows)) == AliasesOf(rows)
  {
    forall id | id in rows ensures ParentOf(ShownAll(rows)[id]) == ParentOf(rows[id]) {
      ShownKeeps(rows[id]);
    }
    hide ParentOf, Shown;
  }

  lemma {:induction false} CompatibleShown(a: Alias, b: Alias, rows: Rows, reported: set<string>)
    requires Acts(a, rows, reported) && Acts(b, rows, reported)
    ensures Acts(a, ShownAll(rows), reported) && Acts(b, ShownAll(rows), reported)
    ensures Compatible(a, b, ShownAll(rows), reported) == Compatible(a, b, rows, reported)
  {
    FollowerShown(a, rows, reported);
    FollowerShown(b, rows, reported);
    var (to, from) := Follower(a, rows, reported).value;
    var source := Source(b, rows, reported);
    ShownKeeps(rows[from]);
    ShownKeeps(rows[source]);
    InheritShown(rows[to], rows[from]);
    ShownKeeps(Inherit(rows[to], rows[from]));
    hide Inherit, Shown, EffectiveAsOf, Follower;
  }

  lemma {:induction false} QuietShown(pairs: set<Alias>, rows: Rows, reported: set<string>)
    requires Quiet(pairs, rows, reported)
    ensures Quiet(pairs, ShownAll(rows), reported)
  {
    forall a, b | a in pairs && b in pairs && Acts(a, ShownAll(rows), reported) && Acts(b, ShownAll(rows), reported)
      ensures Compatible(a, b, ShownAll(rows), reported)
    {
      FollowerShown(a, rows, reported);
      FollowerShown(b, rows, reported);
      CompatibleShown(a, b, rows, reported);
    }
  }

  // ------------------------------------------------------------------------ armed and triaged

  lemma {:induction false} ArmedShown(e: Entity, rows: Rows)
    ensures Passes.Armed(Shown(e), ShownAll(rows)) ==
      match Passes.Armed(e, rows) case None => None case Some(r) => Some(Shown(r))
  {
    ShownKeeps(e);
    if TriggerOf(e) in rows {
      ShownKeeps(rows[TriggerOf(e)]);
    }
    assert TriggerOf(Shown(e)) == TriggerOf(e) && EventDriven(Shown(e)) == EventDriven(e);
    hide TriggerOf, EventDriven;
  }

  lemma {:induction false} ArmShown(rows: Rows)
    ensures ArmAll(ShownAll(rows)) == ShownAll(ArmAll(rows))
  {
    forall id | id in rows ensures ArmAll(ShownAll(rows))[id] == Shown(ArmAll(rows)[id]) {
      ArmedShown(rows[id], rows);
    }
    hide Passes.Armed, Shown;
  }

  lemma {:induction false} TriagedShown(e: Entity, marks: map<string, Mark>)
    ensures Triaged(Shown(e), marks).GetOr(Shown(e)) == Shown(Triaged(e, marks).GetOr(e))
  {
    hide MarkFor, Read;
  }

  lemma {:induction false} TriageShown(rows: Rows, marks: map<string, Mark>)
    ensures TriageAll(ShownAll(rows), marks) == ShownAll(TriageAll(rows, marks))
  {
    forall id | id in rows ensures TriageAll(ShownAll(rows), marks)[id] == Shown(TriageAll(rows, marks)[id]) {
      TriagedShown(rows[id], marks);
    }
    hide Triaged, Shown;
  }
}
