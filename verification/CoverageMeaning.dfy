/** Absence only when somebody looked (`console/index/graph.py:505-522`, `622-697`): what the scope
    sets and horizon minima say about the results they were folded from. */
module CoverageMeaning {
  import opened Wrappers
  import opened Model
  import opened Merge
  import opened Passes
  import opened Graph
  import DutyWindow
  import Text

  // ------------------------------------------------------- reference, over a set of results

  predicate Looked(r: AdapterResult) { r.ok && r.cls == Discovery }

  /** A pass over `pair`; `pair` absent is the whole fleet. */
  predicate LookedAt(r: AdapterResult, pair: Option<Pair>) {
    Looked(r) && match pair case None => r.scope == [] case Some(p) => p in r.scope
  }

  ghost predicate AnyLookedAt(history: History, pair: Option<Pair>) {
    exists r :: history.Contains(r) && LookedAt(r, pair)
  }

  ghost predicate AnyEnumerated(history: History, pair: Option<Pair>) {
    exists r :: history.Contains(r) && LookedAt(r, pair) && r.horizonDays.None?
  }

  predicate Limited(r: AdapterResult, pair: Option<Pair>) { LookedAt(r, pair) && r.horizonDays.Some? }

  /** `h` is the shortest horizon of the passes over `pair`, or None when none of them has one. */
  ghost predicate Shortest(history: History, pair: Option<Pair>, h: Option<real>) {
    match h
    case None => forall r :: history.Contains(r) ==> !Limited(r, pair)
    case Some(least) =>
      && (exists r :: history.Contains(r) && Limited(r, pair) && r.horizonDays.value == least)
      && forall r :: history.Contains(r) && Limited(r, pair) ==> least <= r.horizonDays.value
  }

  /** What the accumulators hold for one pair, or for the whole fleet. */
  predicate ScopeHas(cov: Coverage, pair: Option<Pair>) {
    match pair case None => cov.fleetwide case Some(p) => p in cov.scope
  }

  predicate UnlimitedHas(cov: Coverage, pair: Option<Pair>) {
    match pair case None => cov.unlimitedFleetwide case Some(p) => p in cov.unlimited
  }

  function HorizonAt(cov: Coverage, pair: Option<Pair>): Option<real> {
    match pair case None => cov.horizonFleetwide case Some(p) => HorizonOf(cov.horizon, p)
  }

  // -------------------------------------------------------------------------- one more pass

  lemma {:induction false} ShortenAllAt(m: map<Pair, real>, scope: seq<Pair>, h: real, pair: Pair)
    ensures HorizonOf(ShortenAll(m, scope, h), pair) ==
      if pair in scope then Some(Least(HorizonOf(m, pair), h)) else HorizonOf(m, pair)
  {
    if scope != [] {
      var n := |scope| - 1;
      ShortenAllAt(m, scope[..n], h, pair);
      assert scope == scope[..n] + [scope[n]];
    }
  }

  lemma {:induction false} NoteAt(cov: Coverage, r: AdapterResult, pair: Option<Pair>)
    ensures var now := Note(cov, r);
      && (ScopeHas(now, pair) <==> ScopeHas(cov, pair) || LookedAt(r, pair))
      && (UnlimitedHas(now, pair) <==> UnlimitedHas(cov, pair) || (LookedAt(r, pair) && r.horizonDays.None?))
      && HorizonAt(now, pair) ==
         if Limited(r, pair) then Some(Least(HorizonAt(cov, pair), r.horizonDays.value)) else HorizonAt(cov, pair)
  {
    if pair.Some? && r.horizonDays.Some? {
      ShortenAllAt(cov.horizon, r.scope, r.horizonDays.value, pair.value);
    }
  }

  lemma {:induction false} ShortestNext(history: History, r: AdapterResult, pair: Option<Pair>, h: Option<real>)
    requires Shortest(history, pair, h)
    ensures Shortest(Then(history, r), pair, if Limited(r, pair) then Some(Least(h, r.horizonDays.value)) else h)
  {
    var all := Then(history, r);
    assert forall x :: all.Contains(x) <==> x == r || history.Contains(x);
    if h.Some? {
      var x :| history.Contains(x) && Limited(x, pair) && x.horizonDays.value == h.value;
      assert all.Contains(x);
    }
    assert all.Contains(r);
  }

  /** Every accumulator is the fold of the whole history: a set, a flag or a minimum over the
      results it contains, whatever order they came in. */
  lemma {:induction false} CoverageMeaning(history: History, pair: Option<Pair>)
    ensures ScopeHas(CoverageOf(history), pair) <==> AnyLookedAt(history, pair)
    ensures UnlimitedHas(CoverageOf(history), pair) <==> AnyEnumerated(history, pair)
    ensures Shortest(history, pair, HorizonAt(CoverageOf(history), pair))
  {
    if history.Then? {
      var before, r := history.before, history.last;
      CoverageMeaning(before, pair);
      NoteAt(CoverageOf(before), r, pair);
      hide Note, Shortest;
      ShortestNext(before, r, pair, HorizonAt(CoverageOf(before), pair));
      assert forall x :: history.Contains(x) <==> x == r || before.Contains(x);
    }
  }

  lemma {:induction false} FlagsMeaning(history: History)
    ensures CoverageOf(history).okDiscovery <==> exists r :: history.Contains(r) && Looked(r)
    ensures CoverageOf(history).okDeclaration <==> exists r :: history.Contains(r) && r.ok && r.cls == Declaration
  {
    if history.Then? {
      var before, r := history.before, history.last;
      FlagsMeaning(before);
      assert history.Contains(r);
      forall x ensures history.Contains(x) <==> x == r || before.Contains(x) {
      }
      assert CoverageOf(history).okDiscovery <==> CoverageOf(before).okDiscovery || Looked(r);
      assert CoverageOf(history).okDeclaration <==> CoverageOf(before).okDeclaration || (r.ok && r.cls == Declaration);
    }
  }

  /** The order results arrive in, and how often, leaves no trace in the coverage. */
  lemma {:induction false} CoverageIsOrderFree(h1: History, h2: History)
    requires forall r :: h1.Contains(r) <==> h2.Contains(r)
    ensures CoverageOf(h1) == CoverageOf(h2)
  {
    FlagsMeaning(h1);
    FlagsMeaning(h2);
    forall pair: Option<Pair>
      ensures ScopeHas(CoverageOf(h1), pair) == ScopeHas(CoverageOf(h2), pair)
      ensures UnlimitedHas(CoverageOf(h1), pair) == UnlimitedHas(CoverageOf(h2), pair)
      ensures HorizonAt(CoverageOf(h1), pair) == HorizonAt(CoverageOf(h2), pair)
    {
      CoverageMeaning(h1, pair);
      CoverageMeaning(h2, pair);
    }
    SameAnswersSameCoverage(CoverageOf(h1), CoverageOf(h2));
  }

  lemma {:induction false} SameAnswersSameCoverage(c1: Coverage, c2: Coverage)
    requires c1.okDiscovery == c2.okDiscovery && c1.okDeclaration == c2.okDeclaration
    requires forall pair: Option<Pair> :: ScopeHas(c1, pair) == ScopeHas(c2, pair)
    requires forall pair: Option<Pair> :: UnlimitedHas(c1, pair) == UnlimitedHas(c2, pair)
    requires forall pair: Option<Pair> :: HorizonAt(c1, pair) == HorizonAt(c2, pair)
    ensures c1 == c2
  {
    assert ScopeHas(c1, None) == ScopeHas(c2, None);
    assert UnlimitedHas(c1, None) == UnlimitedHas(c2, None);
    assert HorizonAt(c1, None) == HorizonAt(c2, None);
    forall p: Pair
      ensures p in c1.scope <==> p in c2.scope
      ensures p in c1.unlimited <==> p in c2.unlimited
      ensures HorizonOf(c1.horizon, p) == HorizonOf(c2.horizon, p)
    {
      assert ScopeHas(c1, Some(p)) == ScopeHas(c2, Some(p));
      assert UnlimitedHas(c1, Some(p)) == UnlimitedHas(c2, Some(p));
      assert HorizonAt(c1, Some(p)) == HorizonAt(c2, Some(p));
    }
    assert c1.scope == c2.scope && c1.unlimited == c2.unlimited;
    SameMap(c1.horizon, c2.horizon);
  }

  lemma {:induction false} SameMap(a: map<Pair, real>, b: map<Pair, real>)
    requires forall p: Pair :: HorizonOf(a, p) == HorizonOf(b, p)
    ensures a == b
  {
    forall p: Pair ensures p in a <==> p in b ensures p in a ==> a[p] == b[p] {
      assert HorizonOf(a, p) == HorizonOf(b, p);
    }
  }

  // ------------------------------------------------------------------------------- absence

  /** The row's own facet reads as the pair does. */
  predicate Bears(e: Entity, p: Pair) { Facet(p.0) in e.fields && e.fields[Facet(p.0)] == p.1 }

  /** A successful pass that would have listed `e`, had it been there. */
  predicate Covers(r: AdapterResult, e: Entity) {
    Looked(r) && (r.scope == [] || exists p :: p in r.scope && Bears(e, p))
  }

  /** Its declaration lets `e` be silent for more than so many days: it waits for events, or is declared
      to run less often than that. */
  predicate MaySleep(e: Entity, days: real) {
    var waits, minutes := Detail("cadence"), Detail("cadence_minutes");
    || (waits in e.fields && e.fields[waits].truthy
        && Text.Lower(Text.Strip(e.fields[waits].text)) == "event_driven")
    || (if minutes in e.fields && e.fields[minutes].truthy
        then e.fields[minutes].number.Some? && e.fields[minutes].number.value > days * 1440.0
        else 0.0 > days * 1440.0)
  }

  lemma {:induction false} OutlastsWhenItMaySleep(e: Entity, days: real)
    ensures MayOutlast(e, days) <==> MaySleep(e, days)
  {
    assert |"event_driven"| > 0 && Text.Lower(Text.Strip("")) == "";
    hide Text.Lower, Text.Strip;
  }

  /** A pass that covers `e` and does not excuse its silence. */
  predicate WouldHaveSeen(r: AdapterResult, e: Entity) {
    Covers(r, e) && (r.horizonDays.None? || !MaySleep(e, r.horizonDays.value))
  }

  /** Somebody looked: a pass covers `e`, and either one that enumerates does, or none of the
      covering passes sees less far back than `e` may be silent. */
  ghost predicate SomebodyLooked(history: History, e: Entity) {
    && (exists r :: history.Contains(r) && Covers(r, e))
    && ((exists r :: history.Contains(r) && Covers(r, e) && r.horizonDays.None?)
        || forall r :: history.Contains(r) && Covers(r, e) ==> WouldHaveSeen(r, e))
  }

  /** The pair through which `r` covers `e`. */
  predicate Through(e: Entity, pair: Option<Pair>) { pair.None? || Has(e, pair.value) }

  lemma {:induction false} CoversThrough(r: AdapterResult, e: Entity)
    ensures Covers(r, e) <==> exists pair: Option<Pair> :: Through(e, pair) && LookedAt(r, pair)
  {
    if Covers(r, e) {
      if r.scope == [] {
        assert Through(e, None) && LookedAt(r, None);
      } else {
        var p :| p in r.scope && Has(e, p);
        assert Through(e, Some(p)) && LookedAt(r, Some(p));
      }
    }
  }

  lemma {:induction false} WithinScopeMeaning(history: History, e: Entity)
    ensures WithinScope(e, CoverageOf(history)) <==> exists r :: history.Contains(r) && Covers(r, e)
  {
    var cov := CoverageOf(history);
    if WithinScope(e, cov) {
      var pair := ScopedThrough(cov, e);
      CoverageMeaning(history, pair);
      var r :| history.Contains(r) && LookedAt(r, pair);
      CoversThrough(r, e);
    }
    if r :| history.Contains(r) && Covers(r, e) {
      CoversThrough(r, e);
      var pair: Option<Pair> :| Through(e, pair) && LookedAt(r, pair);
      CoverageMeaning(history, pair);
      assert ScopeHas(cov, pair);
    }
  }

  lemma {:induction false} ScopedThrough(cov: Coverage, e: Entity) returns (pair: Option<Pair>)
    requires WithinScope(e, cov)
    ensures Through(e, pair) && ScopeHas(cov, pair)
  {
    if cov.fleetwide {
      pair := None;
    } else {
      var p :| p in cov.scope && Has(e, p);
      pair := Some(p);
    }
  }

  /** The code's two unlimited tests, read through one pair. */
  ghost predicate EnumeratedFor(cov: Coverage, e: Entity) {
    exists pair: Option<Pair> :: Through(e, pair) && UnlimitedHas(cov, pair)
  }

  ghost predicate ExcusedFor(cov: Coverage, e: Entity) {
    exists pair: Option<Pair> :: Through(e, pair) && HorizonAt(cov, pair).Some? &&
      MayOutlast(e, HorizonAt(cov, pair).value)
  }

  lemma {:induction false} SilenceThrough(cov: Coverage, e: Entity)
    ensures SilenceOutlivesHorizon(e, cov) <==> !EnumeratedFor(cov, e) && ExcusedFor(cov, e)
  {
    EnumeratedThrough(cov, e);
    ExcusedThrough(cov, e);
  }

  lemma {:induction false} EnumeratedThrough(cov: Coverage, e: Entity)
    ensures EnumeratedFor(cov, e) <==> cov.unlimitedFleetwide || exists p :: p in cov.unlimited && Has(e, p)
  {
    if cov.unlimitedFleetwide {
      assert Through(e, None) && UnlimitedHas(cov, None);
    }
    if p :| p in cov.unlimited && Has(e, p) {
      assert Through(e, Some(p)) && UnlimitedHas(cov, Some(p));
    }
  }

  lemma {:induction false} ExcusedThrough(cov: Coverage, e: Entity)
    ensures ExcusedFor(cov, e) <==>
      (cov.horizonFleetwide.Some? && MayOutlast(e, cov.horizonFleetwide.value))
      || exists p :: p in cov.horizon && Has(e, p) && MayOutlast(e, cov.horizon[p])
  {
    hide MayOutlast;
    if cov.horizonFleetwide.Some? && MayOutlast(e, cov.horizonFleetwide.value) {
      assert Through(e, None) && HorizonAt(cov, None).Some?;
    }
    if p :| p in cov.horizon && Has(e, p) && MayOutlast(e, cov.horizon[p]) {
      assert Through(e, Some(p)) && HorizonAt(cov, Some(p)).Some?;
    }
  }

  lemma {:induction false} EnumeratedMeaning(history: History, e: Entity)
    ensures EnumeratedFor(CoverageOf(history), e) <==>
      exists r :: history.Contains(r) && Covers(r, e) && r.horizonDays.None?
  {
    var cov := CoverageOf(history);
    if EnumeratedFor(cov, e) {
      var pair: Option<Pair> :| Through(e, pair) && UnlimitedHas(cov, pair);
      CoverageMeaning(history, pair);
      var r :| history.Contains(r) && LookedAt(r, pair) && r.horizonDays.None?;
      CoversThrough(r, e);
    }
    if r :| history.Contains(r) && Covers(r, e) && r.horizonDays.None? {
      CoversThrough(r, e);
      var pair: Option<Pair> :| Through(e, pair) && LookedAt(r, pair);
      CoverageMeaning(history, pair);
      assert UnlimitedHas(cov, pair);
    }
  }

  lemma {:induction false} ShorterOutlasts(e: Entity, h: real, least: real)
    requires least <= h && MayOutlast(e, h)
    ensures MayOutlast(e, least)
  {
  }

  lemma {:induction false} ExcusedMeaning(history: History, e: Entity)
    ensures ExcusedFor(CoverageOf(history), e) <==>
      exists r :: history.Contains(r) && Covers(r, e) && r.horizonDays.Some? && MayOutlast(e, r.horizonDays.value)
  {
    hide MayOutlast, CoverageOf, Covers;
    var cov := CoverageOf(history);
    if ExcusedFor(cov, e) {
      var pair: Option<Pair> :| Through(e, pair) && HorizonAt(cov, pair).Some? &&
        MayOutlast(e, HorizonAt(cov, pair).value);
      CoverageMeaning(history, pair);
      var r :| history.Contains(r) && Limited(r, pair) && r.horizonDays.value == HorizonAt(cov, pair).value;
      CoversThrough(r, e);
    }
    if r :| history.Contains(r) && Covers(r, e) && r.horizonDays.Some? && MayOutlast(e, r.horizonDays.value) {
      CoversThrough(r, e);
      var pair: Option<Pair> :| Through(e, pair) && LookedAt(r, pair);
      CoverageMeaning(history, pair);
      assert Limited(r, pair);
      ShorterOutlasts(e, r.horizonDays.value, HorizonAt(cov, pair).value);
    }
  }

  /** A component is ABSENT exactly when a registry declared it, no discovery claim found this very
      thing, nothing else placed it, and somebody who would have seen it looked. */
  lemma {:induction false} AbsentExactlyWhenSomebodyLooked(
    history: History, e: Entity, claims: seq<Claim>, now: real, factor: real, parse: DutyWindow.Parser)
    requires e.state != Known(Absent)
    ensures Reconcile(e, claims, CoverageOf(history), now, factor, parse).state == Known(Absent) <==>
      && e.kind == Component && e.state == Known(Unreported) && SomebodyLooked(history, e)
      && (exists c :: c in claims && c.cls == Declaration)
      && !exists c :: c in claims && c.cls == Discovery && !IsNamesake(c, DeclaredFacets(claims))
  {
    var cov := CoverageOf(history);
    WithinScopeMeaning(history, e);
    SilenceThrough(cov, e);
    EnumeratedMeaning(history, e);
    ExcusedMeaning(history, e);
    FlagsMeaning(history);
    forall days ensures MayOutlast(e, days) <==> MaySleep(e, days) {
      OutlastsWhenItMaySleep(e, days);
    }
    hide EnumeratedFor, ExcusedFor, SilenceOutlivesHorizon, WithinScope, CoverageOf, Covers, MayOutlast, MaySleep;
    hide IsNamesake, DeclaredFacets, ObservedSilent, SilenceSeconds, Positive, ObserverCadence, StateName;
    assert SomebodyLooked(history, e) <==> WithinScope(e, cov) && !SilenceOutlivesHorizon(e, cov);
    if r :| history.Contains(r) && Covers(r, e) {
      CoverLooks(r, e);
    }
  }

  /** Each state by its name in the vocabulary. */
  lemma {:induction false} StateNames()
    ensures StateName(Healthy) == "HEALTHY" && StateName(Running) == "RUNNING" && StateName(Degraded) == "DEGRADED"
    ensures StateName(Failed) == "FAILED" && StateName(Stalled) == "STALLED" && StateName(Missed) == "MISSED"
    ensures StateName(NeverRan) == "NEVER_RAN" && StateName(Disabled) == "DISABLED"
    ensures StateName(Deprecated) == "DEPRECATED" && StateName(Retired) == "RETIRED" && StateName(Absent) == "ABSENT"
    ensures StateName(State.Unregistered) == "UNREGISTERED" && StateName(Unreported) == "UNREPORTED"
    ensures StateName(State.Armed) == "ARMED" && StateName(State.OffDuty) == "OFF_DUTY"
  {
  }

  lemma {:induction false} CoverLooks(r: AdapterResult, e: Entity)
    requires Covers(r, e)
    ensures Looked(r)
  {
  }

  /** A component is UNREGISTERED exactly when nothing declared it and some registry was read; what
      its source said of it is kept beside the verdict. */
  lemma {:induction false} UnregisteredExactlyWhenARegistryWasRead(
    history: History, e: Entity, claims: seq<Claim>, now: real, factor: real, parse: DutyWindow.Parser)
    requires HasComponentState(e.kind) && e.state.Known? && e.state != Known(State.Unregistered)
    ensures var r := Reconcile(e, claims, CoverageOf(history), now, factor, parse);
      && (r.state == Known(State.Unregistered) <==>
            e.kind == Component && !Declared(claims) && exists x :: history.Contains(x) && x.ok && x.cls == Declaration)
      && (r.state == Known(State.Unregistered) ==>
            var k := Detail("reported_state");
            && k in r.fields && r.fields[k].text == StateName(e.state.state)
            && r == e.(state := r.state, fields := e.fields[k := r.fields[k]]))
  {
    FlagsMeaning(history);
    assert forall s: State :: StateName(s) != "";
    hide CoverageOf, Declared, LooksAbsent, ObservedSilent, SilenceSeconds, StateName;
  }
}
