/** What a merged row says, entry by entry: the state it renders, whom it credits, and what it keeps
    of the claims that lost (`console/index/merge.py:115-217`). */
module RowMeaning {
  import opened Wrappers
  import opened Model
  import opened Sorting
  import opened Merge
  import opened MergeOrder
  import opened RowOrder

  /** The claim that wins the state. */
  ghost predicate WinsState(claims: seq<Claim>, w: Claim) {
    IsFirst(Ranked(claims), LeadersOf(Line(claims)), w)
  }

  predicate Lifecycle(s: StateValue) { s in {Known(Disabled), Known(Deprecated), Known(Retired)} }

  /** The winner's state is rendered, DEGRADED when anything is contested, unless it is a source's own
      word or a declared lifecycle; the as-of is credited to the row's own provenance, the state to the
      winner, and every field held is credited. */
  lemma {:induction false} RenderedMeaning(claims: seq<Claim>) returns (w: Claim)
    requires Peered(claims)
    ensures WinsState(claims, w) && Resolve(claims).Merged?
    ensures var e, won := Resolve(claims).entity, Brought(Line(claims), w);
      && e.state == (if e.conflicts != {} && won.Known? && !Lifecycle(won) then Known(Degraded) else won)
      && e.fieldSources.Keys == {StateField, AsOf} + (set k | k in e.fields :: Of(k))
      && e.fieldSources[StateField] == w.entity.provenance && e.fieldSources[AsOf] == e.provenance
  {
    RowParts(claims);
    StateIsChosen(claims);
    var s := Ranked(claims);
    var v, t := ResolveState(s), PutClaims(s, |s|);
    hide Resolve, Ranked, Peered, PutClaims, ResolveState, Freshest, AsideLosers, DeclaredFacets, LeadersOf;
    hide IsFirst, Brought;
    w :| WinsState(claims, w) && v.winner == w.entity.provenance && v.state == Brought(Line(claims), w);
    SourcesKeys(t, v.winner, Resolve(claims).entity.provenance);
  }

  lemma {:induction false} SourcesKeys(t: FieldTable, winner: Provenance, freshest: Provenance)
    requires t.sink.Keys == t.sources.Keys
    ensures var r := SourcesOf(t, winner, freshest);
      && r.Keys == {StateField, AsOf} + (set k | k in t.sink :: Of(k))
      && r[StateField] == winner && r[AsOf] == freshest
  {
  }

  /** A lifecycle is for declarations to propose. */
  predicate MayPropose(c: Claim) { Lifecycle(c.entity.state) ==> c.cls == Declaration }

  predicate DeclaredOff(c: Claim) { c.reachable && c.cls == Declaration && Lifecycle(c.entity.state) }

  predicate Read(c: Claim, cls: ClaimClass) { c.reachable && c.cls == cls && !Lifecycle(c.entity.state) }

  ghost predicate Heard(claims: seq<Claim>, p: Claim -> bool) { exists c :: c in Line(claims) && p(c) }

  /** Who wins, from the sources down: a declared lifecycle, else an observation, else a discovery, else
      a declaration, and only then a source that was not read. */
  lemma {:induction false} PrecedenceMeaning(claims: seq<Claim>, w: Claim)
    requires Peered(claims) && WinsState(claims, w)
    ensures
      if Heard(claims, DeclaredOff) then DeclaredOff(w)
      else if Heard(claims, c => Read(c, Observation)) then Read(w, Observation)
      else if Heard(claims, c => Read(c, Discovery)) then Read(w, Discovery)
      else if Heard(claims, c => Read(c, Declaration)) then Read(w, Declaration)
      else Heard(claims, MayPropose) ==> MayPropose(w) && !w.reachable
  {
    var peers := Line(claims);
    hide Peered, Ranked, Line, IsFirst;
    assert w in LeadersOf(peers) by { FirstIsIn(claims, w); }
    forall c | c in peers && Admissible(c) ensures Admissible(w) && StateRank(w) <= StateRank(c) {
    }
  }

  lemma {:induction false} FirstIsIn(claims: seq<Claim>, w: Claim)
    requires WinsState(claims, w)
    ensures w in LeadersOf(Line(claims))
  {
    hide Ranked, LeadersOf, Line;
  }

  // ----------------------------------------------------------------------- what it keeps

  predicate Proposes(c: Claim, k: Key, v: Value, p: Provenance) {
    c.entity.provenance == p && k in c.entity.fields && c.entity.fields[k] == v
  }

  predicate ProposesState(c: Claim, s: StateValue, p: Provenance) {
    c.entity.provenance == p && c.entity.state == s
  }

  /** Somebody the row does not follow on `k` proposed `v`: a namesake, or a claim listened to when
      the row shows another value. */
  ghost predicate InVain(claims: seq<Claim>, shown: Fields, k: Key, v: Value, p: Provenance) {
    exists c :: c in claims && Proposes(c, k, v, p) && (Aside(claims, c) || (k in shown && shown[k] != v))
  }

  predicate Aside(claims: seq<Claim>, c: Claim) { IsNamesake(c, DeclaredFacets(claims)) }

  /** A superseded field names its key, the value proposed and who proposed it, and is kept exactly
      when somebody proposed it in vain. */
  lemma {:induction false} SupersededFieldIff(claims: seq<Claim>, k: Key, v: Value, p: Provenance)
    requires Peered(claims)
    ensures Resolve(claims).Merged?
    ensures var e := Resolve(claims).entity;
      Loser(Of(k), ProposedValue(v), p) in e.superseded <==> InVain(claims, e.fields, k, v, p)
  {
    var s, l := Ranked(claims), Loser(Of(k), ProposedValue(v), p);
    var fields := PutClaims(s, |s|).sink;
    RowParts(claims);
    LineMeaning(claims);
    RankedIsSpread(claims);
    FieldLosersMeaning(s, Line(claims), l);
    StateLosersMeaning(s, Line(claims), l);
    NoStateHere(Line(claims), ResolveState(s).state, l);
    AsideFieldIff(claims, k, v, p);
    LosesFieldIff(Line(claims), fields, k, v, p);
    hide Resolve, Ranked, Peered, PutClaims, ResolveState, LosesField, LosesState, AsideLosers, Freshest, Proposes;
    hide SourcesOf, Spread, DeclaredFacets, IsNamesake, Verdict, Ordered, Line;
    if l in Resolve(claims).entity.superseded {
      if l in AsideLosers(claims, DeclaredFacets(claims)) {
        var c :| c in claims && Proposes(c, k, v, p) && Aside(claims, c);
      } else {
        var c :| c in Line(claims) && Proposes(c, k, v, p) && k in fields && fields[k] != v;
        assert c in claims;
      }
    }
    if c :| c in claims && Proposes(c, k, v, p) && (Aside(claims, c) || (k in fields && fields[k] != v)) {
      assert !Aside(claims, c) ==> c in Line(claims);
    }
  }

  lemma {:induction false} NoStateHere(peers: set<Claim>, state: StateValue, l: Loser)
    ensures l.field != StateField ==> !LosesState(peers, state, l)
  {
  }

  lemma {:induction false} LosesFieldIff(peers: set<Claim>, fields: Fields, k: Key, v: Value, p: Provenance)
    ensures LosesField(peers, fields, Loser(Of(k), ProposedValue(v), p)) <==>
      exists c :: c in peers && Proposes(c, k, v, p) && k in fields && fields[k] != v
  {
    var l := Loser(Of(k), ProposedValue(v), p);
    if c :| c in peers && Proposes(c, k, v, p) && k in fields && fields[k] != v {
      assert l == LostField(c, k);
    }
  }

  lemma {:induction false} AsideFieldIff(claims: seq<Claim>, k: Key, v: Value, p: Provenance)
    ensures Loser(Of(k), ProposedValue(v), p) in AsideLosers(claims, DeclaredFacets(claims)) <==>
      exists c :: c in claims && Proposes(c, k, v, p) && Aside(claims, c)
  {
    hide IsNamesake, DeclaredFacets;
    if c :| c in claims && Proposes(c, k, v, p) && Aside(claims, c) {
      assert Loser(Of(k), ProposedValue(v), p) == LostField(c, k);
    }
  }

  /** Whoever proposed a state in vain: a namesake, a claim that may not propose it, or one listened
      to that proposed another than the winner's. */
  ghost predicate StateInVain(claims: seq<Claim>, won: StateValue, s: StateValue, p: Provenance) {
    exists c :: c in claims && ProposesState(c, s, p) && (Aside(claims, c) || !MayPropose(c) || s != won)
  }

  lemma {:induction false} SupersededStateIff(claims: seq<Claim>, s: StateValue, p: Provenance) returns (w: Claim)
    requires Peered(claims)
    ensures WinsState(claims, w) && Resolve(claims).Merged?
    ensures Loser(StateField, ProposedState(s), p) in Resolve(claims).entity.superseded <==>
      StateInVain(claims, Brought(Line(claims), w), s, p)
  {
    var q, l := Ranked(claims), Loser(StateField, ProposedState(s), p);
    RowParts(claims);
    LineMeaning(claims);
    RankedIsSpread(claims);
    FieldLosersMeaning(q, Line(claims), l);
    NoFieldHere(Line(claims), PutClaims(q, |q|).sink, l);
    StateLosersMeaning(q, Line(claims), l);
    StateIsChosen(claims);
    var won := ResolveState(q).state;
    AsideStateIff(claims, s, p);
    LosesStateIff(Line(claims), won, s, p);
    hide Resolve, Ranked, Peered, PutClaims, ResolveState, LosesField, LosesState, AsideLosers, Freshest, ProposesState;
    hide SourcesOf, Spread, DeclaredFacets, IsNamesake, Verdict, Ordered, Line, LeadersOf, IsFirst, Brought, MayPropose;
    w :| WinsState(claims, w) && won == Brought(Line(claims), w);
    if l in Resolve(claims).entity.superseded {
      if l in AsideLosers(claims, DeclaredFacets(claims)) {
        var c :| c in claims && ProposesState(c, s, p) && Aside(claims, c);
      } else {
        var c :| c in Line(claims) && ProposesState(c, s, p) && (!MayPropose(c) || s != won);
        assert c in claims;
      }
    }
    if c :| c in claims && ProposesState(c, s, p) && (Aside(claims, c) || !MayPropose(c) || s != won) {
      assert !Aside(claims, c) ==> c in Line(claims);
    }
  }

  lemma {:induction false} NoFieldHere(peers: set<Claim>, fields: Fields, l: Loser)
    ensures !l.field.Of? ==> !LosesField(peers, fields, l)
  {
  }

  lemma {:induction false} LosesStateIff(peers: set<Claim>, won: StateValue, s: StateValue, p: Provenance)
    ensures LosesState(peers, won, Loser(StateField, ProposedState(s), p)) <==>
      exists c :: c in peers && ProposesState(c, s, p) && (!MayPropose(c) || s != won)
  {
    if c :| c in peers && ProposesState(c, s, p) && (!MayPropose(c) || s != won) {
      assert Loser(StateField, ProposedState(s), p) == StateLoser(c);
    }
  }

  lemma {:induction false} AsideStateIff(claims: seq<Claim>, s: StateValue, p: Provenance)
    ensures Loser(StateField, ProposedState(s), p) in AsideLosers(claims, DeclaredFacets(claims)) <==>
      exists c :: c in claims && ProposesState(c, s, p) && Aside(claims, c)
  {
    hide IsNamesake, DeclaredFacets;
    if c :| c in claims && ProposesState(c, s, p) && Aside(claims, c) {
      assert Loser(StateField, ProposedState(s), p) == StateLoser(c);
    }
  }

  predicate WellShaped(l: Loser) {
    (l.field == StateField && l.proposal.ProposedState?) || (l.field.Of? && l.proposal.ProposedValue?)
  }

  /** Nothing else is kept. */
  lemma {:induction false} SupersededIsWellShaped(claims: seq<Claim>, l: Loser)
    requires Peered(claims)
    ensures Resolve(claims).Merged? && (l in Resolve(claims).entity.superseded ==> WellShaped(l))
  {
    var s := Ranked(claims);
    RowParts(claims);
    LineMeaning(claims);
    RankedIsSpread(claims);
    FieldLosersMeaning(s, Line(claims), l);
    StateLosersMeaning(s, Line(claims), l);
    hide Resolve, Ranked, Peered, PutClaims, ResolveState, Freshest, SourcesOf, Spread, DeclaredFacets, IsNamesake;
  }
}
