/** Adapter ordering in the whole build (`console/index/graph.py:144-154`, `383-414`): the same
    results added in any order show the same index, unless a field is contested, a declared
    lifecycle disputed, an observer's cadence tied or an alias competed for; and build the very same
    index when nothing was chosen among equals. */
module OrderFree {
  import opened Wrappers
  import opened Model
  import opened Merge
  import opened MergeOrder
  import opened RowOrder
  import opened Passes
  import opened Graph
  import opened CoverageMeaning
  import opened BuildMeaning
  import opened AliasOrder
  import opened Looks
  import DutyWindow
  import Text

  // ------------------------------------------------------------------ results in any order

  ghost function ResultsOf(history: History): multiset<AdapterResult> {
    match history
    case Start => multiset{}
    case Then(before, r) => ResultsOf(before) + multiset{r}
  }

  /** `history` without the last result equal to `r`. */
  ghost function Remove(history: History, r: AdapterResult): History {
    match history
    case Start => Start
    case Then(before, last) => if last == r then before else Then(Remove(before, r), last)
  }

  lemma {:induction false} ContainsResult(history: History, r: AdapterResult)
    ensures history.Contains(r) <==> r in ResultsOf(history)
  {
    if history.Then? {
      ContainsResult(history.before, r);
    }
  }

  lemma {:induction false} RemoveMeaning(history: History, r: AdapterResult, id: string)
    requires r in ResultsOf(history)
    ensures ResultsOf(history) == ResultsOf(Remove(history, r)) + multiset{r}
    ensures multiset(About(history, id)) ==
      multiset(About(Remove(history, r), id)) + multiset(AboutIn(r, id, |r.entities|))
  {
    hide AboutIn;
    if history.last != r {
      RemoveMeaning(history.before, r, id);
    }
  }

  lemma {:induction false} Cancel<T>(x: multiset<T>, y: multiset<T>, r: T)
    requires x + multiset{r} == y + multiset{r}
    ensures x == y
  {
    assert x == x + multiset{r} - multiset{r};
    assert y == y + multiset{r} - multiset{r};
  }

  lemma {:induction false} NoResults(history: History)
    ensures ResultsOf(history) == multiset{} ==> history == Start
  {
    assert history.Then? ==> history.last in ResultsOf(history);
  }

  lemma {:induction false} SameClaims(h1: History, h2: History, id: string)
    requires ResultsOf(h1) == ResultsOf(h2)
    ensures multiset(About(h1, id)) == multiset(About(h2, id))
  {
    hide AboutIn;
    match h1
    case Start =>
      NoResults(h2);
    case Then(before, r) =>
      assert r in ResultsOf(h2);
      RemoveMeaning(h2, r, id);
      hide About;
      Cancel(ResultsOf(before), ResultsOf(Remove(h2, r)), r);
      SameClaims(before, Remove(h2, r), id);
      AboutOneMore(before, r, id);
  }

  lemma {:induction false} AboutOneMore(before: History, r: AdapterResult, id: string)
    ensures About(Then(before, r), id) == About(before, id) + AboutIn(r, id, |r.entities|)
  {
  }

  // -------------------------------------------------------------------- one identifier's row

  lemma {:induction false} LoneIsItself(p: seq<Claim>, q: seq<Claim>)
    requires multiset(p) == multiset(q) && |p| <= 1
    ensures p == q
  {
    assert |p| == |multiset(p)| == |multiset(q)| == |q|;
    if p != [] {
      assert p[0] in multiset(q);
    }
  }

  lemma {:induction false} SameNamesakes(p: seq<Claim>, q: seq<Claim>)
    requires multiset(p) == multiset(q) && ScopesAgree(p)
    ensures forall c :: c in p ==> IsNamesake(c, DeclaredFacets(p)) == IsNamesake(c, DeclaredFacets(q))
  {
    Permuted(p, q);
    PermutedClaims(p, q);
    forall c | c in p ensures IsNamesake(c, DeclaredFacets(p)) == IsNamesake(c, DeclaredFacets(q)) {
      NamesakeMeaning(p, c);
      NamesakeMeaning(q, c);
      SameNamesake(p, q, c);
    }
  }

  lemma {:induction false} SameNamesake(p: seq<Claim>, q: seq<Claim>, c: Claim)
    requires forall d :: d in p <==> d in q
    ensures Namesake(p, c) == Namesake(q, c)
  {
    forall name, v ensures Declares(p, name, v) <==> Declares(q, name, v) {
    }
  }

  /** Registered, found, reported: the comparisons between claims ignore arrival order. */
  lemma {:induction false} SamePlacement(p: seq<Claim>, q: seq<Claim>)
    requires multiset(p) == multiset(q) && ScopesAgree(p)
    ensures Declared(p) == Declared(q) && Discovered(p) == Discovered(q) && HasOwnReport(p) == HasOwnReport(q)
  {
    Permuted(p, q);
    SameNamesakes(p, q);
    hide DeclaredFacets, IsNamesake, ScopesAgree;
  }

  const LAST_RUN := "last_invocation"

  predicate SameCadence(c: Claim, d: Claim) {
    c.entity.provenance.cadenceSeconds == d.entity.provenance.cadenceSeconds
  }

  /** Claims tied for the last run seen, or for the latest stamp, come from sources that poll alike. */
  ghost predicate CadencesAgree(peers: set<Claim>) {
    && (forall c, d :: Foremost(HoldersOf(peers, Detail(LAST_RUN)), c) &&
          Foremost(HoldersOf(peers, Detail(LAST_RUN)), d)
          ==> SameCadence(c, d))
    && forall c, d :: Latest(peers, c) && Latest(peers, d) ==> SameCadence(c, d)
  }

  /** Those first in line for the state would have it rendered the same. */
  ghost predicate StatesSettle(peers: set<Claim>) {
    forall c, d :: Leads(peers, c) && Leads(peers, d) ==>
      Verdict(c.entity.state, Conflicts(peers) != {}) == Verdict(d.entity.state, Conflicts(peers) != {})
  }

  /** For components and runs that is no more than agreeing on the declared lifecycle. */
  lemma {:induction false} AgreedLifecyclesSettle(claims: seq<Claim>)
    requires Mergeable(claims) && LifecyclesAgree(claims)
    ensures StatesSettle(PeerSet(claims))
  {
    var peers := PeerSet(claims);
    forall c, d | Leads(peers, c) && Leads(peers, d)
      ensures Verdict(c.entity.state, Conflicts(peers) != {}) == Verdict(d.entity.state, Conflicts(peers) != {})
    {
      LeadersAgree(claims, peers, c, d);
    }
  }

  /** What an identifier's claims must not do for arrival order to stay out of sight. */
  ghost predicate Steady(claims: seq<Claim>) {
    || |claims| <= 1
    || !OneKind(claims)
    || (OwnProvenance(claims) && Uncontested(claims) && StatesSettle(PeerSet(claims)) && CadencesAgree(PeerSet(claims)))
  }

  lemma {:induction false} SettledStatesAgree(peers: set<Claim>, a: StateValue, b: StateValue)
    requires StatesSettle(peers) && IsVerdict(peers, a) && IsVerdict(peers, b)
    ensures a == b
  {
    hide Leads, Conflicts, Verdict;
  }

  /** The stamp a row shows is a latest one. */
  lemma {:induction false} StampIsLatest(claims: seq<Claim>) returns (c: Claim)
    requires Peered(claims)
    ensures Resolve(claims).Merged? && Latest(Line(claims), c)
    ensures Resolve(claims).entity.provenance == c.entity.provenance
  {
    RowParts(claims);
    StateIsChosen(claims);
    LeadersAreHeard(Line(claims));
    InLine(claims);
    NotEmpty(claims);
    var s, peers := Ranked(claims), Line(claims);
    var v := ResolveState(s);
    hide Resolve, Ranked, Line, Peered, ResolveState, Text.AtMost;
    if exists b :: b in peers && Stamps(b) {
      hide IsFirst;
      c := AsOfIsChosen(claims, v.winner);
      ChosenIsLatest(s, peers, c);
    } else {
      FreshestMeaning(s, v.winner);
      c :| IsFirst(s, LeadersOf(peers), c) && v.winner == c.entity.provenance;
      assert c in peers;
      UnstampedIsLatest(peers, c);
    }
  }

  lemma {:induction false} ChosenIsLatest(s: seq<Claim>, peers: set<Claim>, c: Claim)
    requires IsFirst(s, LatestOf(peers), c)
    ensures Latest(peers, c)
  {
    hide Text.AtMost;
  }

  lemma {:induction false} UnstampedIsLatest(peers: set<Claim>, c: Claim)
    requires c in peers && forall b :: b in peers ==> !Stamps(b)
    ensures Latest(peers, c)
  {
    forall b | b in peers ensures Text.AtMost(b.entity.provenance.asOf, c.entity.provenance.asOf) {
      EmptyIsLeast("");
    }
  }

  lemma {:induction false} SameObserver(p: seq<Claim>, q: seq<Claim>)
    requires Peered(p) && Peered(q) && Line(p) == Line(q) && CadencesAgree(Line(p))
    ensures Resolve(p).Merged? && Resolve(q).Merged?
    ensures ObserverCadence(Resolve(p).entity) == ObserverCadence(Resolve(q).entity)
  {
    var peers, last := Line(p), Detail(LAST_RUN);
    var c := StampIsLatest(p);
    var d := StampIsLatest(q);
    assert SameCadence(c, d);
    HeldIsCredited(p, last);
    HeldIsCredited(q, last);
    FieldComesFrom(p, last);
    FieldComesFrom(q, last);
    hide Resolve, Line, Peered, Latest, Foremost, Conflicts;
    if last in Resolve(p).entity.fields {
      var a :| Foremost(HoldersOf(peers, last), a) && Credited(Resolve(p).entity, last, a);
      var b :| Foremost(HoldersOf(peers, last), b) && Credited(Resolve(q).entity, last, b);
      assert SameCadence(a, b);
    }
  }

  lemma {:induction false} SourcesHold(t: FieldTable, winner: Provenance, freshest: Provenance, k: Key)
    ensures Of(k) in SourcesOf(t, winner, freshest) <==> k in t.sources
  {
  }

  /** A field that is held is credited. */
  lemma {:induction false} HeldIsCredited(claims: seq<Claim>, k: Key)
    requires Peered(claims)
    ensures Resolve(claims).Merged?
    ensures var e := Resolve(claims).entity; Of(k) in e.fieldSources <==> k in e.fields
  {
    RowParts(claims);
    hide Resolve, Ranked, Peered, PutClaims, ResolveState, Freshest, SourcesOf, AsideLosers, DeclaredFacets, Verdict;
    var s := Ranked(claims);
    SourcesHold(PutClaims(s, |s|), ResolveState(s).winner, Resolve(claims).entity.provenance, k);
  }

  /** Steady claims: whatever the order, the merged row shows the same. */
  lemma {:induction false} SteadyRowsShowAlike(p: seq<Claim>, q: seq<Claim>)
    requires multiset(p) == multiset(q) && Peered(p) && OneId(p)
    requires Uncontested(p) && StatesSettle(PeerSet(p)) && CadencesAgree(PeerSet(p))
    ensures q != [] && Resolve(p).Merged? && Resolve(q).Merged?
    ensures Shown(Resolve(p).entity) == Shown(Resolve(q).entity)
    ensures ObserverCadence(Resolve(p).entity) == ObserverCadence(Resolve(q).entity)
  {
    Permuted(p, q);
    PermutedClaims(p, q);
    UncontestedScopesAgree(p);
    LineIsPeerSet(p);
    LineIsPeerSet(q);
    hide PeerSet, Line, Resolve, Ranked, Uncontested, ScopesAgree, ResolveState, PutClaims, Freshest, AsideLosers;
    hide IsVerdict, IsLatest, Conflicts, StatesSettle, CadencesAgree;
    MergeMeaning(p);
    MergeMeaning(q);
    SettledStatesAgree(Line(p), Resolve(p).entity.state, Resolve(q).entity.state);
    ConflictsAndAsOfAreOrderFree(p, q);
    UncontestedFieldsAgree(p, q);
    SameObserver(p, q);
    RowParts(p);
    RowParts(q);
    OneName(p);
    OneName(q);
    SameHeads(p, q);
    hide Peered, Verdict, ObserverCadence, OneId;
  }

  // ------------------------------------------------------------------------- two ledgers

  lemma {:induction false} ClaimsOf(history: History, id: string)
    ensures id in LedgerOf(history).claims <==> About(history, id) != []
    ensures id in LedgerOf(history).claims ==> LedgerOf(history).claims[id] == About(history, id)
  {
    LedgerMeaning(history, id);
  }

  /** Two ledgers that hold the same claims under every identifier, each in its own order. */
  ghost predicate Reordered(l1: Ledger, l2: Ledger) {
    && l1.claims.Keys == l2.claims.Keys
    && forall id :: id in l1.claims ==> multiset(l1.claims[id]) == multiset(l2.claims[id])
  }

  lemma {:induction false} LedgersReordered(h1: History, h2: History)
    requires ResultsOf(h1) == ResultsOf(h2)
    ensures Reordered(LedgerOf(h1), LedgerOf(h2))
  {
    hide LedgerOf, About, ResultsOf;
    forall id
      ensures id in LedgerOf(h1).claims <==> id in LedgerOf(h2).claims
      ensures id in LedgerOf(h1).claims ==> multiset(LedgerOf(h1).claims[id]) == multiset(LedgerOf(h2).claims[id])
    {
      SameClaims(h1, h2, id);
      ClaimsOf(h1, id);
      ClaimsOf(h2, id);
      SameEmptiness(About(h1, id), About(h2, id));
    }
  }

  lemma {:induction false} SameEmptiness<T>(p: seq<T>, q: seq<T>)
    requires multiset(p) == multiset(q)
    ensures p == [] <==> q == []
  {
    assert |multiset(p)| == |p| && |multiset(q)| == |q|;
  }

  lemma {:induction false} SameCoverage(h1: History, h2: History)
    requires ResultsOf(h1) == ResultsOf(h2)
    ensures CoverageOf(h1) == CoverageOf(h2)
  {
    forall r ensures h1.Contains(r) <==> h2.Contains(r) {
      ContainsResult(h1, r);
      ContainsResult(h2, r);
    }
    hide ResultsOf, CoverageOf;
    CoverageIsOrderFree(h1, h2);
  }

  lemma {:induction false} OnDutyListed(inp: Inputs, now: real, parse: DutyWindow.Parser)
    requires Sound(inp.ledger) && !Collides(inp.ledger)
    ensures Lists(inp.ledger.ids, OnDuty(inp, now, parse))
  {
    hide DutyWindow.Folded, DutyWindow.ResolveEntity, Placed;
  }


  // ------------------------------------------------------------------------ the whole build

  lemma {:induction false} CollisionIsKind(p: seq<Claim>)
    requires p != []
    ensures Resolve(p).Collision? <==> !OneKind(p)
  {
    hide OneKind;
  }

  lemma {:induction false} CollideAlike(l1: Ledger, l2: Ledger)
    requires Sound(l1) && Sound(l2) && Reordered(l1, l2)
    ensures Collides(l1) <==> Collides(l2)
  {
    forall id | id in l1.claims ensures Resolve(l1.claims[id]).Collision? <==> Resolve(l2.claims[id]).Collision? {
      Permuted(l1.claims[id], l2.claims[id]);
      CollisionIsKind(l1.claims[id]);
      CollisionIsKind(l2.claims[id]);
      hide Resolve;
    }
    hide Resolve;
  }

  /** The claims of one identifier of a ledger, and their rearrangement in another. */
  lemma {:induction false} OneIdentifier(l1: Ledger, l2: Ledger, id: string)
    requires Sound(l1) && Sound(l2) && Reordered(l1, l2) && !Collides(l1) && id in l1.claims
    ensures id in l2.claims
    ensures var p, q := l1.claims[id], l2.claims[id];
      && p != [] && q != [] && multiset(p) == multiset(q) && OneKind(p) && OneId(p)
      && (|p| <= 1 ==> p == q) && (|p| >= 2 && OwnProvenance(p) ==> Peered(p))
  {
    var p, q := l1.claims[id], l2.claims[id];
    assert Resolve(p).Merged?;
    CollisionIsKind(p);
    if |p| <= 1 {
      LoneIsItself(p, q);
    }
    hide Resolve, OwnProvenance, OneKind;
  }

  /** Steady claims: the row is placed, and reported on, alike. */
  lemma {:induction false} PlacedShowAlike(l1: Ledger, l2: Ledger, id: string, cov: Coverage, factor: real,
                                           marks: map<string, Mark>, now: real, parse: DutyWindow.Parser)
    requires Sound(l1) && Sound(l2) && Reordered(l1, l2) && !Collides(l1) && !Collides(l2)
    requires id in l1.claims && Steady(l1.claims[id])
    ensures id in l2.claims && HasOwnReport(l1.claims[id]) == HasOwnReport(l2.claims[id])
    ensures Shown(Placed(Inputs(l1, cov, factor, marks), id, now, parse))
      == Shown(Placed(Inputs(l2, cov, factor, marks), id, now, parse))
  {
    OneIdentifier(l1, l2, id);
    var p, q := l1.claims[id], l2.claims[id];
    hide Resolve, Reconcile, HasOwnReport, Declared, Discovered, Shown, Peered, OneId, OneKind, ScopesAgree;
    hide Uncontested, StatesSettle, CadencesAgree, PeerSet, OwnProvenance, ObserverCadence;
    if |p| >= 2 {
      SteadyRowsShowAlike(p, q);
      UncontestedScopesAgree(p);
      SamePlacement(p, q);
      PlacedShown(Resolve(p).entity, Resolve(q).entity, p, q, cov, now, factor, parse);
    }
  }

  lemma {:induction false} ReconciledShowAlike(l1: Ledger, l2: Ledger, cov: Coverage, factor: real,
                                               marks: map<string, Mark>, now: real, parse: DutyWindow.Parser)
    requires Sound(l1) && Sound(l2) && Reordered(l1, l2) && !Collides(l1) && !Collides(l2)
    requires forall id :: id in l1.claims ==> Steady(l1.claims[id])
    ensures Reported(l1.claims) == Reported(l2.claims)
    ensures ShownAll(Reconciled(Inputs(l1, cov, factor, marks), now, parse))
      == ShownAll(Reconciled(Inputs(l2, cov, factor, marks), now, parse))
  {
    hide Collides, Placed, HasOwnReport, Shown, Steady, Sound;
    var a, b := Inputs(l1, cov, factor, marks), Inputs(l2, cov, factor, marks);
    forall id | id in l1.claims
      ensures Shown(Placed(a, id, now, parse)) == Shown(Placed(b, id, now, parse))
      ensures HasOwnReport(l1.claims[id]) == HasOwnReport(l2.claims[id])
    {
      PlacedShowAlike(l1, l2, id, cov, factor, marks, now, parse);
    }
    assert l1.claims.Keys == l2.claims.Keys;
    hide Reordered;
    SameReported(l1.claims, l2.claims);
    assert Reconciled(a, now, parse).Keys == Reconciled(b, now, parse).Keys;
  }

  lemma {:induction false} SameReported(p: map<string, seq<Claim>>, q: map<string, seq<Claim>>)
    requires p.Keys == q.Keys && forall id :: id in p ==> HasOwnReport(p[id]) == HasOwnReport(q[id])
    ensures Reported(p) == Reported(q)
  {
    hide HasOwnReport;
    assert forall id :: id in Reported(p) <==> id in Reported(q);
  }

  lemma {:induction false} RestShown(ids: seq<string>, rows: Rows, reported: set<string>, marks: map<string, Mark>)
    requires forall id :: id in ids ==> id in rows
    ensures forall id :: id in ids ==> id in ShownAll(rows)
    ensures ShownIf(Rest(ids, rows, reported, marks)) == Rest(ids, ShownAll(rows), reported, marks)
  {
    var pairs := AliasPairs(ids, rows);
    PairsShown(ids, rows);
    InheritAllShown(pairs, rows, reported);
    var aliased := InheritAll(pairs, rows, reported);
    if aliased.Some? {
      ArmShown(aliased.value);
      TriageShown(ArmAll(aliased.value), marks);
    }
    hide AliasPairs, InheritAll, ArmAll, TriageAll, Shown;
    assert ShownAll(rows).Keys == rows.Keys;
    hide ShownAll;
  }

  lemma {:induction false} RestIgnoresOrder(p: seq<string>, q: seq<string>, rows: Rows, reported: set<string>,
                                            marks: map<string, Mark>)
    requires Lists(p, rows) && Lists(q, rows) && Quiet(AliasesOf(rows), rows, reported)
    ensures Rest(p, rows, reported, marks) == Rest(q, rows, reported, marks)
  {
    hide AliasesOf, Quiet, AliasPairs, InheritAll, TriageAll, ArmAll;
    AliasPassIgnoresOrder(p, q, rows, reported);
  }

  lemma {:induction false} ListsShown(ids: seq<string>, rows: Rows)
    requires Lists(ids, rows)
    ensures Lists(ids, ShownAll(rows))
  {
    hide Shown;
  }

  lemma {:induction false} RestShowsAlike(p: seq<string>, q: seq<string>, r1: Rows, r2: Rows, reported: set<string>,
                                          marks: map<string, Mark>)
    requires Lists(p, r1) && Lists(q, r2) && ShownAll(r1) == ShownAll(r2) && Quiet(AliasesOf(r1), r1, reported)
    ensures ShownIf(Rest(p, r1, reported, marks)) == ShownIf(Rest(q, r2, reported, marks))
  {
    ListsShown(p, r1);
    ListsShown(q, r2);
    hide ShownAll, AliasesOf, Quiet, ShownIf, Rest;
    RestShown(p, r1, reported, marks);
    RestShown(q, r2, reported, marks);
    QuietShown(AliasesOf(r1), r1, reported);
    AliasesShown(r1);
    hide Lists;
    RestIgnoresOrder(p, q, ShownAll(r1), reported, marks);
  }

  /** Aliases of the rows a build hands them do not compete. */
  ghost predicate QuietBuild(inp: Inputs, now: real, parse: DutyWindow.Parser) {
    Sound(inp.ledger) && !Collides(inp.ledger) ==>
      var rows := OnDuty(inp, now, parse); Quiet(AliasesOf(rows), rows, Reported(inp.ledger.claims))
  }

  lemma {:induction false} UncollidedShowAlike(a: Inputs, b: Inputs, now: real, parse: DutyWindow.Parser)
    requires Sound(a.ledger) && Sound(b.ledger) && !Collides(a.ledger) && !Collides(b.ledger)
    requires a.factor == b.factor && a.marks == b.marks && Reported(a.ledger.claims) == Reported(b.ledger.claims)
    requires ShownAll(Reconciled(a, now, parse)) == ShownAll(Reconciled(b, now, parse)) && QuietBuild(a, now, parse)
    ensures ShownIf(Build(a, now, parse)) == ShownIf(Build(b, now, parse))
  {
    DutyShown(Reconciled(a, now, parse), a.factor, parse);
    DutyShown(Reconciled(b, now, parse), b.factor, parse);
    OnDutyListed(a, now, parse);
    OnDutyListed(b, now, parse);
    BuildThroughAliases(a, now, parse);
    BuildThroughAliases(b, now, parse);
    hide Build, Collides, Reconciled, Reported, ShownAll, ShownIf, Rest, DutyWindow.Resolve, Quiet, AliasesOf, Lists;
    assert ShownAll(OnDuty(a, now, parse)) == ShownAll(OnDuty(b, now, parse));
    hide OnDuty;
    RestShowsAlike(a.ledger.ids, b.ledger.ids, OnDuty(a, now, parse), OnDuty(b, now, parse),
                   Reported(a.ledger.claims), a.marks);
  }

  /** The result does not depend on adapter ordering. Whatever is claimed and however often: if no
      field is contested, the leaders of every state settle, tied observers poll alike and aliases
      do not compete, the same results added in any order show the same index, or raise alike. */
  lemma {:induction false} BuildIgnoresAdapterOrder(h1: History, h2: History, factor: real, marks: map<string, Mark>,
                                                    now: real, parse: DutyWindow.Parser)
    requires ResultsOf(h1) == ResultsOf(h2) && (forall id :: Steady(About(h1, id)))
    requires QuietBuild(InputsOf(h1, factor, marks), now, parse)
    ensures ShownIf(Build(InputsOf(h1, factor, marks), now, parse))
      == ShownIf(Build(InputsOf(h2, factor, marks), now, parse))
  {
    var l1, l2 := LedgerOf(h1), LedgerOf(h2);
    LedgerIsSound(h1);
    LedgerIsSound(h2);
    LedgersReordered(h1, h2);
    SameCoverage(h1, h2);
    forall id | id in l1.claims ensures Steady(l1.claims[id]) {
      ClaimsOf(h1, id);
    }
    hide LedgerOf, CoverageOf, ResultsOf, Reordered, Sound, Steady, QuietBuild, About, ShownAll, Reported;
    CollideAlike(l1, l2);
    if Collides(l1) {
      hide Collides, Reconciled, OnDuty;
    } else {
      hide Collides, Build, Reconciled;
      ReconciledShowAlike(l1, l2, CoverageOf(h1), factor, marks, now, parse);
      UncollidedShowAlike(InputsOf(h1, factor, marks), InputsOf(h2, factor, marks), now, parse);
    }
  }

  // -------------------------------------------------------------------- credit and all

  /** What an identifier's claims must not do for order to stay out of the row altogether. */
  ghost predicate Settled(claims: seq<Claim>) {
    |claims| <= 1 || !OneKind(claims) || (OwnProvenance(claims) && Untied(PeerSet(claims)))
  }

  lemma {:induction false} PlacedIdentically(l1: Ledger, l2: Ledger, id: string, cov: Coverage, factor: real,
                                             marks: map<string, Mark>, now: real, parse: DutyWindow.Parser)
    requires Sound(l1) && Sound(l2) && Reordered(l1, l2) && !Collides(l1) && !Collides(l2)
    requires id in l1.claims && Settled(l1.claims[id])
    ensures id in l2.claims && HasOwnReport(l1.claims[id]) == HasOwnReport(l2.claims[id])
    ensures Placed(Inputs(l1, cov, factor, marks), id, now, parse) ==
      Placed(Inputs(l2, cov, factor, marks), id, now, parse)
  {
    OneIdentifier(l1, l2, id);
    var p, q := l1.claims[id], l2.claims[id];
    hide Resolve, Reconcile, HasOwnReport, Declared, Discovered, Peered, OneId, OneKind, ScopesAgree, Untied;
    hide PeerSet, OwnProvenance;
    if |p| >= 2 {
      UntiedRowsAgree(p, q);
      UntiedIsUncontested(p);
      SamePlacement(p, q);
      PlacedTheSame(Resolve(p).entity, p, q, cov, now, factor, parse);
    }
  }

  lemma {:induction false} PlacedTheSame(e: Entity, p: seq<Claim>, q: seq<Claim>, cov: Coverage,
                                         now: real, factor: real, parse: DutyWindow.Parser)
    requires Declared(p) == Declared(q) && Discovered(p) == Discovered(q)
    ensures Reconcile(e, p, cov, now, factor, parse) == Reconcile(e, q, cov, now, factor, parse)
  {
    hide Declared, Discovered, CadenceState, WithinScope, SilenceOutlivesHorizon, StateName;
  }

  lemma {:induction false} ReconciledIdentically(l1: Ledger, l2: Ledger, cov: Coverage, factor: real,
                                                 marks: map<string, Mark>, now: real, parse: DutyWindow.Parser)
    requires Sound(l1) && Sound(l2) && Reordered(l1, l2) && !Collides(l1) && !Collides(l2)
    requires forall id :: id in l1.claims ==> Settled(l1.claims[id])
    ensures Reported(l1.claims) == Reported(l2.claims)
    ensures Reconciled(Inputs(l1, cov, factor, marks), now, parse) ==
      Reconciled(Inputs(l2, cov, factor, marks), now, parse)
  {
    hide Collides, Placed, HasOwnReport, Settled;
    assert l1.claims.Keys == l2.claims.Keys;
    var a, b := Inputs(l1, cov, factor, marks), Inputs(l2, cov, factor, marks);
    forall id | id in l1.claims
      ensures Placed(a, id, now, parse) == Placed(b, id, now, parse)
      ensures HasOwnReport(l1.claims[id]) == HasOwnReport(l2.claims[id])
    {
      PlacedIdentically(l1, l2, id, cov, factor, marks, now, parse);
    }
    hide Sound, Reordered;
    SameReported(l1.claims, l2.claims);
  }

  lemma {:induction false} UncollidedIdentical(a: Inputs, b: Inputs, now: real, parse: DutyWindow.Parser)
    requires Sound(a.ledger) && Sound(b.ledger) && !Collides(a.ledger) && !Collides(b.ledger)
    requires a.factor == b.factor && a.marks == b.marks && Reported(a.ledger.claims) == Reported(b.ledger.claims)
    requires Reconciled(a, now, parse) == Reconciled(b, now, parse) && QuietBuild(a, now, parse)
    ensures Build(a, now, parse) == Build(b, now, parse)
  {
    OnDutyListed(a, now, parse);
    OnDutyListed(b, now, parse);
    BuildThroughAliases(a, now, parse);
    BuildThroughAliases(b, now, parse);
    hide Build, Collides, Reconciled, Reported, DutyWindow.Resolve, Quiet, AliasesOf, Lists, Rest;
    RestIgnoresOrder(a.ledger.ids, b.ledger.ids, OnDuty(a, now, parse), Reported(a.ledger.claims), a.marks);
  }

  /** With nothing chosen among equals, any order builds the very same index, credit included. */
  lemma {:induction false} UntiedBuildsAreIdentical(h1: History, h2: History, factor: real, marks: map<string, Mark>,
                                                    now: real, parse: DutyWindow.Parser)
    requires ResultsOf(h1) == ResultsOf(h2) && (forall id :: Settled(About(h1, id)))
    requires QuietBuild(InputsOf(h1, factor, marks), now, parse)
    ensures Build(InputsOf(h1, factor, marks), now, parse) == Build(InputsOf(h2, factor, marks), now, parse)
  {
    var l1, l2 := LedgerOf(h1), LedgerOf(h2);
    LedgerIsSound(h1);
    LedgerIsSound(h2);
    LedgersReordered(h1, h2);
    SameCoverage(h1, h2);
    forall id | id in l1.claims ensures Settled(l1.claims[id]) {
      ClaimsOf(h1, id);
    }
    hide LedgerOf, CoverageOf, ResultsOf, Reordered, Sound, Settled, QuietBuild, About, Reported;
    CollideAlike(l1, l2);
    if Collides(l1) {
      hide Collides, Reconciled, OnDuty;
    } else {
      hide Collides, Build, Reconciled;
      ReconciledIdentically(l1, l2, CoverageOf(h1), factor, marks, now, parse);
      UncollidedIdentical(InputsOf(h1, factor, marks), InputsOf(h2, factor, marks), now, parse);
    }
  }
}
