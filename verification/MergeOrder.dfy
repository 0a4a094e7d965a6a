/** What a merge means, stated without arrival order, and exactly when arrival order is
    invisible (`console/index/merge.py:115-217`). */
module MergeOrder {
  import opened Wrappers
  import opened Model
  import opened Sorting
  import opened Merge
  import Text

  // ---------------------------------------------------------- what the index ingests

  /** Every claim appears once, with a provenance of its own. */
  ghost predicate OwnProvenance(claims: seq<Claim>) {
    && (forall c :: multiset(claims)[c] <= 1)
    && forall c, d :: c in claims && d in claims ==>
      c.entity.provenance.identity == d.entity.provenance.identity ==> c == d
  }

  /** Component or Run claims as `add_result` records them: an unreachable source is UNREPORTED. */
  ghost predicate Ingested(claims: seq<Claim>) {
    forall c :: c in claims ==> c.entity.state.Known? && (!c.reachable ==> c.entity.state == UNREPORTED)
  }

  predicate IsRegistry(c: Claim) { c.cls == Declaration && c.reachable }

  ghost predicate Scoped(claims: seq<Claim>, name: string) {
    exists c, i :: c in claims && 0 <= i < |c.scope| && c.scope[i].0 == name
  }

  /** Reachable declarations agree on every facet some discovery scope is written in. */
  ghost predicate ScopesAgree(claims: seq<Claim>) {
    forall c, d, name :: c in claims && d in claims && IsRegistry(c) && IsRegistry(d) && Scoped(claims, name) ==>
      Facet(name) in c.entity.fields && Facet(name) in d.entity.fields
      ==> c.entity.fields[Facet(name)] == d.entity.fields[Facet(name)]
  }

  /** Reachable declarations that declare a lifecycle declare the same one. */
  ghost predicate LifecyclesAgree(claims: seq<Claim>) {
    forall c, d :: c in claims && d in claims && IsRegistry(c) && IsRegistry(d) ==>
      DeclaredOnly(c.entity.state) && DeclaredOnly(d.entity.state) ==> c.entity.state == d.entity.state
  }

  // ------------------------------------------------- the reference, over a set of claims

  ghost predicate Declares(claims: seq<Claim>, name: string, v: Value) {
    exists d :: d in claims && DeclaredBy(d, name, v)
  }

  predicate DeclaredBy(d: Claim, name: string, v: Value) {
    IsRegistry(d) && Facet(name) in d.entity.fields && d.entity.fields[Facet(name)] == v
  }

  ghost predicate Namesake(claims: seq<Claim>, c: Claim) {
    && c.cls == Discovery && c.scope != []
    && (forall i :: 0 <= i < |c.scope| ==> !Declares(claims, c.scope[i].0, c.scope[i].1))
    && exists i, v :: 0 <= i < |c.scope| && Declares(claims, c.scope[i].0, v)
  }

  ghost function PeerSet(claims: seq<Claim>): set<Claim> {
    set c | c in claims && !Namesake(claims, c)
  }

  /** Two claims of one class hold different values for `k`, and nobody outranks them on it. */
  ghost predicate Disagree(peers: set<Claim>, c: Claim, d: Claim, k: Key) {
    && c in peers && d in peers && k in c.entity.fields && k in d.entity.fields
    && c.cls == d.cls && c.entity.fields[k] != d.entity.fields[k]
    && forall b :: b in peers && k in b.entity.fields ==> ClassRank(c) <= ClassRank(b)
  }

  /** `c` is first in line for the state. */
  ghost predicate Leads(peers: set<Claim>, c: Claim) {
    c in peers && Admissible(c) && forall b :: b in peers && Admissible(b) ==> StateRank(c) <= StateRank(b)
  }

  ghost predicate StatesDisagree(peers: set<Claim>, c: Claim, d: Claim) {
    Leads(peers, c) && Leads(peers, d) && c.reachable && d.reachable && c.entity.state != d.entity.state
  }

  ghost function Conflicts(peers: set<Claim>): set<Field> {
    (set c, k | c in peers && k in c.entity.fields && (exists d :: Disagree(peers, c, d, k)) :: Of(k))
    + (if exists c, d :: StatesDisagree(peers, c, d) then {StateField} else {})
  }

  function Verdict(state: StateValue, conflicted: bool): StateValue {
    if conflicted && state.Known? && !DeclaredOnly(state) then Known(Degraded) else state
  }

  ghost predicate IsVerdict(peers: set<Claim>, state: StateValue) {
    var conflicted := Conflicts(peers) != {};
    if exists c :: c in peers && Admissible(c)
    then exists c :: Leads(peers, c) && state == Verdict(c.entity.state, conflicted)
    else state == Verdict(UNREPORTED, conflicted)
  }

  ghost predicate IsLatest(peers: set<Claim>, stamp: string) {
    && (exists c :: c in peers && c.entity.provenance.asOf == stamp)
    && forall c :: c in peers ==> Text.AtMost(c.entity.provenance.asOf, stamp)
  }

  // -------------------------------------------------------------- namesakes and peers

  lemma {:induction false} DeclaredFacetsMeaning(claims: seq<Claim>, name: string)
    ensures name in DeclaredFacets(claims) <==> exists v :: Declares(claims, name, v)
    ensures name in DeclaredFacets(claims) ==> Declares(claims, name, DeclaredFacets(claims)[name])
  {
    if claims != [] {
      var n := |claims| - 1;
      DeclaredFacetsMeaning(claims[..n], name);
      assert claims == claims[..n] + [claims[n]];
      if IsRegistry(claims[n]) && Facet(name) in claims[n].entity.fields {
        assert claims[n] in claims && DeclaredBy(claims[n], name, claims[n].entity.fields[Facet(name)]);
      }
      forall v ensures Declares(claims, name, v) <==> Declares(claims[..n], name, v) || DeclaredBy(claims[n], name, v) {
        assert forall d :: d in claims <==> d in claims[..n] || d == claims[n];
      }
    }
  }

  lemma {:induction false} NamesakeMeaning(claims: seq<Claim>, c: Claim)
    requires c in claims && ScopesAgree(claims)
    ensures IsNamesake(c, DeclaredFacets(claims)) <==> Namesake(claims, c)
  {
    var declared := DeclaredFacets(claims);
    forall i | 0 <= i < |c.scope|
      ensures c.scope[i].0 in declared <==> exists v :: Declares(claims, c.scope[i].0, v)
      ensures c.scope[i].0 in declared && declared[c.scope[i].0] == c.scope[i].1
         <==> Declares(claims, c.scope[i].0, c.scope[i].1)
    {
      DeclaredFacetsMeaning(claims, c.scope[i].0);
      assert Scoped(claims, c.scope[i].0);
    }
  }

  /** The claims a merge listens to, as the code selects them. */
  ghost function Line(claims: seq<Claim>): set<Claim> { set c | c in Ranked(claims) }

  lemma {:induction false} LineMeaning(claims: seq<Claim>)
    requires claims != []
    ensures Ranked(claims) != [] && Ordered(Ranked(claims), ClassRank)
    ensures forall c :: c in Line(claims) <==> c in claims && !IsNamesake(c, DeclaredFacets(claims))
  {
    PeersNeverEmpty(claims);
    SortByMeaning(Peers(claims, DeclaredFacets(claims)), ClassRank);
  }

  lemma {:induction false} TwoObservations(c: Claim, d: Claim)
    requires c.cls == Observation && d.cls == Observation
    ensures Line([c, d]) == {c, d}
  {
    assert forall x :: x in [c, d] <==> x == c || x == d;
    hide DeclaredFacets, Ranked;
    LineMeaning([c, d]);
  }

  lemma {:induction false} LineIsPeerSet(claims: seq<Claim>)
    requires claims != [] && ScopesAgree(claims)
    ensures Line(claims) == PeerSet(claims)
  {
    LineMeaning(claims);
    forall c | c in claims ensures c in Line(claims) <==> c in PeerSet(claims) {
      NamesakeMeaning(claims, c);
    }
  }

  lemma {:induction false} PeersAreFewer(claims: seq<Claim>, declared: map<string, Value>)
    ensures multiset(Peers(claims, declared)) <= multiset(claims)
  {
    if claims != [] {
      PeersAreFewer(claims[1..], declared);
      assert claims == [claims[0]] + claims[1..];
    }
  }

  ghost predicate Spread(s: seq<Claim>) {
    forall i, j :: 0 <= i < j < |s| ==> s[i].entity.provenance.identity != s[j].entity.provenance.identity
  }

  lemma {:induction false} RankedIsSpread(claims: seq<Claim>)
    requires claims != [] && OwnProvenance(claims)
    ensures Spread(Ranked(claims))
  {
    var declared, s := DeclaredFacets(claims), Ranked(claims);
    PeersAreFewer(claims, declared);
    PeersMembers(claims, declared);
    SortByMeaning(Peers(claims, declared), ClassRank);
    forall i, j | 0 <= i < j < |s|
      ensures s[i].entity.provenance.identity != s[j].entity.provenance.identity
    {
      assert s[i] in s && s[j] in s;
      if s[i] == s[j] {
        CountedTwice(s, i, j);
      }
    }
  }

  // --------------------------------------------------------------- facets and detail

  /** The place of the first claim holding `k`, or past the end. */
  function Holder(s: seq<Claim>, k: Key): (h: nat)
    ensures h <= |s|
    ensures h < |s| ==> k in s[h].entity.fields
    ensures forall j :: 0 <= j < h ==> k !in s[j].entity.fields
  {
    if s == [] || k in s[0].entity.fields then 0 else 1 + Holder(s[1..], k)
  }

  predicate Differs(s: seq<Claim>, k: Key, i: nat, j: nat)
    requires i < |s| && j < |s|
  {
    && k in s[i].entity.fields && k in s[j].entity.fields
    && s[i].entity.fields[k] != s[j].entity.fields[k] && ClassRank(s[i]) == ClassRank(s[j])
  }

  lemma {:induction false} WinnerRank(s: seq<Claim>, i: nat, rank: int)
    requires i < |s| && Spread(s)
    ensures SameRankAsWinner(s, rank, s[i].entity.provenance) <==> ClassRank(s[i]) == rank
  {
    if i > 0 {
      WinnerRank(s[1..], i - 1, rank);
    }
  }

  /** What the first `n` claims leave at `k`: the first holder's value, credited to it, and a
      conflict exactly when a later claim of its rank disagrees. */
  ghost predicate Held(s: seq<Claim>, n: nat, t: FieldTable, k: Key)
    requires n <= |s|
  {
    var h := Holder(s, k);
    && t.sink.Keys == t.sources.Keys
    && (k in t.sink <==> h < n)
    && (h < n ==> t.sink[k] == s[h].entity.fields[k] && t.sources[k] == s[h].entity.provenance)
    && (k in t.conflicts <==> exists j :: h < j < n && Differs(s, k, h, j))
  }

  lemma {:induction false} HeldNext(s: seq<Claim>, n: nat, t: FieldTable, r: FieldTable, k: Key)
    requires n < |s| && Spread(s) && Held(s, n, t, k) && Puts(s, s[n], t, r, k)
    ensures Held(s, n + 1, r, k)
  {
    var h := Holder(s, k);
    if h < n {
      WinnerRank(s, h, ClassRank(s[n]));
      assert NewConflict(s, s[n], t, k) <==> Differs(s, k, h, n);
    }
  }

  lemma {:induction false} PutClaimsMeaning(s: seq<Claim>, n: nat, k: Key)
    requires n <= |s| && Spread(s)
    ensures Held(s, n, PutClaims(s, n), k)
  {
    if n > 0 {
      hide Held, Puts, PutClaim;
      PutClaimsMeaning(s, n - 1, k);
      PutClaimAt(s, s[n - 1], PutClaims(s, n - 1), k);
      HeldNext(s, n - 1, PutClaims(s, n - 1), PutClaims(s, n), k);
    }
  }

  lemma {:induction false} ConflictMeaning(s: seq<Claim>, peers: set<Claim>, k: Key)
    requires Spread(s) && Ordered(s, ClassRank) && forall c :: c in s <==> c in peers
    ensures k in PutClaims(s, |s|).conflicts <==> exists c, d :: Disagree(peers, c, d, k)
  {
    PutClaimsMeaning(s, |s|, k);
    assert k in PutClaims(s, |s|).conflicts <==> exists j :: Holder(s, k) < j < |s| && Differs(s, k, Holder(s, k), j);
    if j :| Holder(s, k) < j < |s| && Differs(s, k, Holder(s, k), j) {
      DisagreementFromConflict(s, peers, j, k);
    }
    if c, d :| Disagree(peers, c, d, k) {
      ConflictFromDisagreement(s, peers, c, d, k);
    }
  }

  lemma {:induction false} DisagreementFromConflict(s: seq<Claim>, peers: set<Claim>, j: nat, k: Key)
    requires Ordered(s, ClassRank) && (forall c :: c in s <==> c in peers)
    requires Holder(s, k) < j < |s| && Differs(s, k, Holder(s, k), j)
    ensures Disagree(peers, s[Holder(s, k)], s[j], k)
  {
    var h := Holder(s, k);
    assert s[h] in s && s[j] in s;
    forall b | b in peers && k in b.entity.fields ensures ClassRank(s[h]) <= ClassRank(b) {
      var x :| 0 <= x < |s| && s[x] == b;
    }
  }

  lemma {:induction false} ConflictFromDisagreement(s: seq<Claim>, peers: set<Claim>, c: Claim, d: Claim, k: Key)
    requires Ordered(s, ClassRank) && (forall c :: c in s <==> c in peers) && Disagree(peers, c, d, k)
    ensures Holder(s, k) < |s|
    ensures exists j :: Holder(s, k) < j < |s| && Differs(s, k, Holder(s, k), j)
  {
    var h := Holder(s, k);
    var x :| 0 <= x < |s| && s[x] == c;
    var y :| 0 <= y < |s| && s[y] == d;
    assert h <= x && h <= y;
    assert s[h] in peers;
    assert ClassRank(s[h]) == ClassRank(c);
    if s[h].entity.fields[k] != c.entity.fields[k] {
      assert Differs(s, k, h, x);
    } else {
      assert Differs(s, k, h, y);
    }
  }

  // ----------------------------------------------------------------------- the state

  lemma {:induction false} AdmissibleOfMembers(s: seq<Claim>)
    ensures forall c :: c in AdmissibleOf(s) <==> c in s && Admissible(c)
  {
    if s != [] {
      AdmissibleOfMembers(s[..|s| - 1]);
      assert s == s[..|s| - 1] + [s[|s| - 1]];
    }
  }

  lemma {:induction false} ContestedByMeaning(best: Claim, s: seq<Claim>)
    ensures ContestedBy(best, s) <==> exists c :: c in s && Contests(c, best)
  {
    if s != [] {
      ContestedByMeaning(best, s[..|s| - 1]);
      assert s == s[..|s| - 1] + [s[|s| - 1]];
      assert s[|s| - 1] in s;
    }
  }

  lemma {:induction false} BestLeads(s: seq<Claim>, peers: set<Claim>)
    requires AdmissibleOf(s) != [] && forall c :: c in s <==> c in peers
    ensures SortBy(AdmissibleOf(s), StateRank) != []
    ensures Leads(peers, SortBy(AdmissibleOf(s), StateRank)[0])
  {
    var a := AdmissibleOf(s);
    var ranked := SortBy(a, StateRank);
    AdmissibleOfMembers(s);
    SortByMeaning(a, StateRank);
    assert ranked[0] in ranked;
    forall b | b in peers && Admissible(b) ensures StateRank(ranked[0]) <= StateRank(b) {
      assert b in a && b in ranked;
      var i :| 0 <= i < |ranked| && ranked[i] == b;
    }
  }

  lemma {:induction false} ContestMeaning(s: seq<Claim>, peers: set<Claim>, ranked: seq<Claim>)
    requires ranked != [] && (forall c :: c in ranked <==> c in peers && Admissible(c))
    requires Leads(peers, ranked[0])
    ensures ContestedBy(ranked[0], ranked[1..]) <==> exists c, d :: StatesDisagree(peers, c, d)
  {
    var best, rest := ranked[0], ranked[1..];
    ContestedByMeaning(best, rest);
    if c :| c in rest && Contests(c, best) {
      assert c in ranked;
      assert StatesDisagree(peers, c, best);
    }
    if c, d :| StatesDisagree(peers, c, d) {
      var other := if c.entity.state == best.entity.state then d else c;
      assert Contests(other, best) && other in ranked;
      var i :| 0 <= i < |ranked| && ranked[i] == other;
      assert rest[i - 1] == other;
    }
  }

  /** The state's winner leads its peers, and the state is contested exactly when leaders disagree. */
  lemma {:induction false} StateMeaning(s: seq<Claim>, peers: set<Claim>)
    requires s != [] && forall c :: c in s <==> c in peers
    ensures ResolveState(s).contested <==> exists c, d :: StatesDisagree(peers, c, d)
    ensures AdmissibleOf(s) != [] <==> exists c :: c in peers && Admissible(c)
    ensures AdmissibleOf(s) != [] ==>
      exists c :: Leads(peers, c) && ResolveState(s).state == c.entity.state &&
        ResolveState(s).winner == c.entity.provenance
    ensures AdmissibleOf(s) == [] ==>
      ResolveState(s).state == UNREPORTED && ResolveState(s).winner == s[0].entity.provenance
  {
    var a := AdmissibleOf(s);
    var ranked := SortBy(a, StateRank);
    AdmissibleOfMembers(s);
    SortByMeaning(a, StateRank);
    if a != [] {
      assert a[0] in a;
      BestLeads(s, peers);
      ContestMeaning(s, peers, ranked);
    } else {
      assert forall c :: c in peers ==> c in s;
    }
  }

  // ----------------------------------------------------------------------- the as-of

  lemma {:induction false} FreshestMeaning(s: seq<Claim>, fallback: Provenance)
    ensures !Stamped(s) ==> Freshest(s, fallback) == fallback
    ensures Stamped(s) ==> exists c :: c in s && c.entity.provenance == Freshest(s, fallback)
    ensures Stamped(s) ==> forall c :: c in s ==>
      Text.AtMost(c.entity.provenance.asOf, Freshest(s, fallback).asOf)
  {
    if s != [] {
      var n := |s| - 1;
      var earlier := Freshest(s[..n], fallback);
      FreshestMeaning(s[..n], fallback);
      assert s == s[..n] + [s[n]];
      var p, r := s[n].entity.provenance, Freshest(s, fallback);
      assert s[n] in s;
      Text.AtMostTotal(p.asOf, earlier.asOf);
      Text.AtMostTotal(p.asOf, p.asOf);
      if Stamped(s) {
        forall c | c in s ensures Text.AtMost(c.entity.provenance.asOf, r.asOf) {
          if c in s[..n] && Stamped(s[..n]) {
            Text.AtMostTransitive(c.entity.provenance.asOf, earlier.asOf, r.asOf);
          }
        }
        if Stamped(s[..n]) {
          var c :| c in s[..n] && c.entity.provenance == earlier;
          assert c in s;
        }
      }
    }
  }

  // --------------------------------------------------------------------- the theorems

  /** Two or more claims about one thing, of whatever kind. */
  ghost predicate Peered(claims: seq<Claim>) { |claims| >= 2 && OneKind(claims) && OwnProvenance(claims) }

  ghost predicate Mergeable(claims: seq<Claim>) { Peered(claims) && Ingested(claims) }

  lemma {:induction false} ConflictsMeaning(s: seq<Claim>, peers: set<Claim>, v: StateVerdict)
    requires Spread(s) && Ordered(s, ClassRank) && forall c :: c in s <==> c in peers
    requires v.contested <==> exists c, d :: StatesDisagree(peers, c, d)
    ensures AllConflicts(PutClaims(s, |s|), v) == Conflicts(peers)
  {
    var t := PutClaims(s, |s|);
    forall k ensures k in t.conflicts <==> Of(k) in Conflicts(peers) {
      ConflictMeaning(s, peers, k);
    }
    forall f ensures f in AllConflicts(t, v) <==> f in Conflicts(peers) {
      match f
      case StateField =>
      case AsOf =>
      case Of(k) => assert k in t.conflicts <==> Of(k) in Conflicts(peers);
    }
  }

  lemma {:induction false} LatestMeaning(s: seq<Claim>, peers: set<Claim>, fallback: Provenance)
    requires s != [] && (forall c :: c in s <==> c in peers) && exists c :: c in s && c.entity.provenance == fallback
    ensures IsLatest(peers, Freshest(s, fallback).asOf)
  {
    FreshestMeaning(s, fallback);
    if !Stamped(s) {
      assert forall c :: c in peers ==> c.entity.provenance.asOf == "";
    }
  }

  /** A merge computes the reference over the claims it listens to: the contested fields, the
      verdict, the as-of. */
  lemma {:induction false} MergeMeaning(claims: seq<Claim>)
    requires Peered(claims)
    ensures Resolve(claims).Merged?
    ensures Resolve(claims).entity.conflicts == Conflicts(Line(claims))
    ensures IsVerdict(Line(claims), Resolve(claims).entity.state)
    ensures IsLatest(Line(claims), Resolve(claims).entity.provenance.asOf)
  {
    var s, peers := Ranked(claims), Line(claims);
    LineMeaning(claims);
    var v, e := ResolveState(s), Resolve(claims).entity;
    RankedIsSpread(claims);
    StateMeaning(s, peers);
    ConflictsMeaning(s, peers, v);
    assert exists c :: c in s && c.entity.provenance == v.winner by {
      assert s[0] in s;
    }
    LatestMeaning(s, peers, v.winner);
    assert e.state == Verdict(v.state, Conflicts(peers) != {});
  }

  lemma {:induction false} LeadersAgree(claims: seq<Claim>, peers: set<Claim>, c: Claim, d: Claim)
    requires Ingested(claims) && LifecyclesAgree(claims) && forall b :: b in peers ==> b in claims
    requires Leads(peers, c) && Leads(peers, d)
    ensures c.entity.state == d.entity.state
      || (Conflicts(peers) != {} && !DeclaredOnly(c.entity.state) && !DeclaredOnly(d.entity.state))
  {
    if c.entity.state != d.entity.state {
      assert StateRank(c) == StateRank(d);
      assert c.reachable && d.reachable;
      assert StatesDisagree(peers, c, d);
      assert StateField in Conflicts(peers);
    }
  }

  lemma {:induction false} VerdictIsUnique(claims: seq<Claim>, peers: set<Claim>, a: StateValue, b: StateValue)
    requires Ingested(claims) && LifecyclesAgree(claims) && forall c :: c in peers ==> c in claims
    requires IsVerdict(peers, a) && IsVerdict(peers, b)
    ensures a == b
  {
    var conflicted := Conflicts(peers) != {};
    if exists c :: c in peers && Admissible(c) {
      var c :| Leads(peers, c) && a == Verdict(c.entity.state, conflicted);
      var d :| Leads(peers, d) && b == Verdict(d.entity.state, conflicted);
      LeadersAgree(claims, peers, c, d);
    }
  }

  lemma {:induction false} LifecycleLeads(peers: set<Claim>, lead: Claim, r: Claim)
    requires Leads(peers, lead) && r in peers && IsRegistry(r) && DeclaredOnly(r.entity.state)
    ensures IsRegistry(lead) && DeclaredOnly(lead.entity.state)
  {
    assert StateRank(lead) <= StateRank(r) == 0;
  }

  lemma {:induction false} LifecycleIsHeard(claims: seq<Claim>, c: Claim)
    requires Ingested(claims) && c in claims && Admissible(c) && DeclaredOnly(c.entity.state)
    ensures IsRegistry(c) && c in Line(claims)
  {
    LineMeaning(claims);
  }

  lemma {:induction false} FacetDisagreementConflicts(claims: seq<Claim>)
    requires claims != [] && !ScopesAgree(claims)
    ensures Conflicts(Line(claims)) != {}
    ensures exists c :: c in Line(claims) && Admissible(c)
  {
    LineMeaning(claims);
    var c, d, name :| c in claims && d in claims && IsRegistry(c) && IsRegistry(d) && Scoped(claims, name)
      && Facet(name) in c.entity.fields && Facet(name) in d.entity.fields
      && c.entity.fields[Facet(name)] != d.entity.fields[Facet(name)];
    assert Disagree(Line(claims), c, d, Facet(name));
    assert Of(Facet(name)) in Conflicts(Line(claims));
    assert Admissible(c);
  }

  /** Once registries disagree on a facet every verdict is DEGRADED or a declared lifecycle. */
  lemma {:induction false} RegistriesDisagree(claims: seq<Claim>, state: StateValue) returns (lead: Claim)
    requires claims != [] && Ingested(claims) && !ScopesAgree(claims) && IsVerdict(Line(claims), state)
    ensures Leads(Line(claims), lead) && lead in claims
    ensures state == if DeclaredOnly(lead.entity.state) then lead.entity.state else Known(Degraded)
  {
    LineMeaning(claims);
    FacetDisagreementConflicts(claims);
    lead :| Leads(Line(claims), lead) && state == Verdict(lead.entity.state, true);
  }

  lemma {:induction false} LatestIsUnique(peers: set<Claim>, a: string, b: string)
    requires IsLatest(peers, a) && IsLatest(peers, b)
    ensures a == b
  {
    Text.AtMostAntisymmetric(a, b);
  }

  lemma {:induction false} Permuted(p: seq<Claim>, q: seq<Claim>)
    requires multiset(p) == multiset(q)
    ensures |p| == |q| && forall c :: c in p <==> c in q
  {
    assert |multiset(p)| == |multiset(q)|;
    forall c ensures c in p <==> c in q {
      assert c in multiset(p) <==> c in multiset(q);
    }
  }

  lemma {:induction false} PermutedClaims(p: seq<Claim>, q: seq<Claim>)
    requires multiset(p) == multiset(q)
    ensures PeerSet(p) == PeerSet(q)
    ensures Peered(p) ==> Peered(q)
    ensures Mergeable(p) ==> Mergeable(q)
    ensures ScopesAgree(p) <==> ScopesAgree(q)
    ensures LifecyclesAgree(p) <==> LifecyclesAgree(q)
  {
    Permuted(p, q);
    forall name, v ensures Declares(p, name, v) <==> Declares(q, name, v) {
    }
    forall c ensures Namesake(p, c) <==> Namesake(q, c) {
    }
    forall name ensures Scoped(p, name) <==> Scoped(q, name) {
    }
  }

  /** When the registries agree on the facets scopes are written in, the conflict set and the
      as-of never depend on arrival order. */
  lemma {:induction false} ConflictsAndAsOfAreOrderFree(p: seq<Claim>, q: seq<Claim>)
    requires multiset(p) == multiset(q) && Peered(p) && ScopesAgree(p)
    ensures Resolve(p).Merged? && q != [] && Resolve(q).Merged?
    ensures Resolve(p).entity.conflicts == Resolve(q).entity.conflicts
    ensures Resolve(p).entity.provenance.asOf == Resolve(q).entity.provenance.asOf
  {
    PermutedClaims(p, q);
    MergeMeaning(p);
    MergeMeaning(q);
    LineIsPeerSet(p);
    LineIsPeerSet(q);
    LatestIsUnique(PeerSet(p), Resolve(p).entity.provenance.asOf, Resolve(q).entity.provenance.asOf);
  }

  /** Registries that agree on the lifecycle are enough for the state. */
  lemma {:induction false} StateIsOrderFree(p: seq<Claim>, q: seq<Claim>)
    requires multiset(p) == multiset(q) && Mergeable(p) && LifecyclesAgree(p)
    ensures Resolve(p).Merged? && q != [] && Resolve(q).Merged?
    ensures Resolve(p).entity.state == Resolve(q).entity.state
  {
    Permuted(p, q);
    PermutedClaims(p, q);
    MergeMeaning(p);
    MergeMeaning(q);
    if ScopesAgree(p) {
      LineIsPeerSet(p);
      LineIsPeerSet(q);
      VerdictIsUnique(p, PeerSet(p), Resolve(p).entity.state, Resolve(q).entity.state);
    } else {
      var c := RegistriesDisagree(p, Resolve(p).entity.state);
      var d := RegistriesDisagree(q, Resolve(q).entity.state);
      if DeclaredOnly(c.entity.state) {
        LifecycleIsHeard(q, c);
        LifecycleLeads(Line(q), d, c);
      } else if DeclaredOnly(d.entity.state) {
        LifecycleIsHeard(p, d);
        LifecycleLeads(Line(p), c, d);
      }
    }
  }

  function Leading(claims: seq<Claim>, i: nat): seq<Claim>
    requires i < |claims|
  {
    [claims[i]] + claims[..i] + claims[i + 1..]
  }

  lemma {:induction false} LeadingPermutes(claims: seq<Claim>, i: nat)
    requires i < |claims|
    ensures multiset(Leading(claims, i)) == multiset(claims)
  {
    assert claims == claims[..i] + [claims[i]] + claims[i + 1..];
  }

  lemma {:induction false} AdmissibleHead(s: seq<Claim>)
    requires s != [] && Admissible(s[0])
    ensures AdmissibleOf(s) != [] && AdmissibleOf(s)[0] == s[0]
  {
    if |s| > 1 {
      AdmissibleHead(s[..|s| - 1]);
    }
  }

  /** The first declared lifecycle to arrive is the one that stands. */
  lemma {:induction false} FirstLifecycleWins(claims: seq<Claim>)
    requires Mergeable(claims) && IsRegistry(claims[0]) && DeclaredOnly(claims[0].entity.state)
    ensures Resolve(claims).Merged? && Resolve(claims).entity.state == claims[0].entity.state
  {
    var c, declared := claims[0], DeclaredFacets(claims);
    assert Peers(claims, declared) == [c] + Peers(claims[1..], declared);
    SmallestStaysFirst(Peers(claims, declared), ClassRank);
    var s := Ranked(claims);
    AdmissibleHead(s);
    SmallestStaysFirst(AdmissibleOf(s), StateRank);
    MergeMeaning(claims);
  }

  ghost predicate SameState(p: seq<Claim>, q: seq<Claim>) {
    && p != [] && q != [] && Resolve(p).Merged? && Resolve(q).Merged?
    && Resolve(p).entity.state == Resolve(q).entity.state
  }

  ghost predicate StateIgnoresOrder(claims: seq<Claim>) {
    forall q | multiset(q) == multiset(claims) :: SameState(claims, q)
  }

  lemma {:induction false} LeadingWins(claims: seq<Claim>, i: nat)
    requires Mergeable(claims) && i < |claims| && IsRegistry(claims[i]) && DeclaredOnly(claims[i].entity.state)
    ensures var p := Leading(claims, i);
      && multiset(p) == multiset(claims)
      && Resolve(p).Merged? && Resolve(p).entity.state == claims[i].entity.state
  {
    LeadingPermutes(claims, i);
    PermutedClaims(claims, Leading(claims, i));
    FirstLifecycleWins(Leading(claims, i));
  }

  lemma {:induction false} DisagreeingLifecyclesShowOrder(claims: seq<Claim>, i: nat, j: nat)
    requires Mergeable(claims) && i < |claims| && j < |claims| && IsRegistry(claims[i]) && IsRegistry(claims[j])
    requires DeclaredOnly(claims[i].entity.state) && DeclaredOnly(claims[j].entity.state)
    requires claims[i].entity.state != claims[j].entity.state
    ensures !StateIgnoresOrder(claims)
  {
    LeadingWins(claims, i);
    LeadingWins(claims, j);
    assert !(SameState(claims, Leading(claims, i)) && SameState(claims, Leading(claims, j)));
  }

  /** Arrival order is invisible in the state exactly when the declared lifecycles agree. */
  lemma {:induction false} StateIsOrderFreeIff(claims: seq<Claim>)
    requires Mergeable(claims)
    ensures StateIgnoresOrder(claims) <==> LifecyclesAgree(claims)
  {
    if LifecyclesAgree(claims) {
      forall q | multiset(q) == multiset(claims) ensures SameState(claims, q) {
        StateIsOrderFree(claims, q);
      }
    } else {
      var c, d :| c in claims && d in claims && IsRegistry(c) && IsRegistry(d)
        && DeclaredOnly(c.entity.state) && DeclaredOnly(d.entity.state) && c.entity.state != d.entity.state;
      var i: nat :| i < |claims| && claims[i] == c;
      var j: nat :| j < |claims| && claims[j] == d;
      DisagreeingLifecyclesShowOrder(claims, i, j);
    }
  }

  /** A lifecycle that comes out of a merge of two or more claims was proposed by a declaration. */
  lemma {:induction false} LifecycleIsDeclared(claims: seq<Claim>)
    requires |claims| >= 2 && Resolve(claims).Merged? && DeclaredOnly(Resolve(claims).entity.state)
    ensures exists c :: c in claims && c.cls == Declaration && c.entity.state == Resolve(claims).entity.state
  {
    LineMeaning(claims);
    StateMeaning(Ranked(claims), Line(claims));
    var c :| Leads(Line(claims), c) && c.entity.state == ResolveState(Ranked(claims)).state;
    assert c in claims && Admissible(c);
  }

  /** The lifecycle guard: a rendered lifecycle was proposed by a declaration. It holds of a merge
      exactly when the claim is not alone, or passes the guard by itself: a lone claim is returned
      before the guard looks at it. */
  lemma {:induction false} GuardHoldsIff(claims: seq<Claim>)
    requires claims != [] && Resolve(claims).Merged?
    ensures (DeclaredOnly(Resolve(claims).entity.state) ==>
      exists c :: c in claims && c.cls == Declaration && c.entity.state == Resolve(claims).entity.state)
      <==> !(|claims| == 1 && !Admissible(claims[0]))
  {
    if |claims| == 1 {
      LoneClaim(claims);
    } else if DeclaredOnly(Resolve(claims).entity.state) {
      LifecycleIsDeclared(claims);
    }
    hide Resolve;
  }

  lemma {:induction false} LoneClaim(claims: seq<Claim>)
    requires |claims| == 1
    ensures Resolve(claims) == Merged(claims[0].entity)
    ensures forall c :: c in claims <==> c == claims[0]
  {
  }

  // ------------------------------------------------ registries that disagree on a scope facet

  lemma {:induction false} FirstRegistryDeclares(first: Claim, second: Claim, d: Claim, name: string, v: Value)
    requires IsRegistry(first) && FacetsOf(first.entity.fields) == map[name := v]
    requires IsRegistry(second) && FacetsOf(second.entity.fields).Keys == {name} && !IsRegistry(d)
    ensures DeclaredFacets([first, second, d]) == map[name := v]
  {
    var claims := [first, second, d];
    assert claims[..2] == [first, second] && claims[..2][..1] == [first] && claims[..2][..1][..0] == [];
    hide FacetsOf;
    assert DeclaredFacets([]) == map[];
    assert DeclaredFacets([first]) == map[name := v];
    assert DeclaredFacets([first, second]) == map[name := v];
  }

  lemma {:induction false} LatestIsChosen(claims: seq<Claim>, c: Claim)
    requires Mergeable(claims) && c in claims && !IsNamesake(c, DeclaredFacets(claims))
    requires forall d :: d in claims && !IsNamesake(d, DeclaredFacets(claims)) ==>
      Text.AtMost(d.entity.provenance.asOf, c.entity.provenance.asOf)
    ensures Resolve(claims).Merged? && Resolve(claims).entity.provenance.asOf == c.entity.provenance.asOf
  {
    MergeMeaning(claims);
    LineMeaning(claims);
    hide Resolve, Mergeable, IsNamesake, DeclaredFacets, Text.AtMost, Ordered, Line, Ranked, Conflicts, IsVerdict;
    LatestIsUnique(Line(claims), Resolve(claims).entity.provenance.asOf, c.entity.provenance.asOf);
  }

  lemma {:induction false} SwappedIsMergeable(a: Claim, b: Claim, d: Claim)
    requires Mergeable([a, b, d])
    ensures Mergeable([b, a, d])
  {
    SwapFirst(a, b, d);
    PermutedClaims([a, b, d], [b, a, d]);
  }

  lemma {:induction false} NamesakeOfOne(d: Claim, name: string, v: Value, w: Value)
    requires d.cls == Discovery && d.scope == [(name, v)]
    ensures IsNamesake(d, map[name := w]) <==> v != w
  {
    assert d.scope[0] == (name, v);
    assert d.scope[0].0 in map[name := w];
  }

  /** Three claims on one identifier: two registries that hold `v` and `w` for a facet, and a later
      stamped discovery scoped to the facet's value `v`. */
  ghost predicate Scopes(a: Claim, b: Claim, d: Claim, name: string, v: Value, w: Value) {
    && Mergeable([a, b, d]) && IsRegistry(a) && IsRegistry(b)
    && FacetsOf(a.entity.fields) == map[name := v] && FacetsOf(b.entity.fields) == map[name := w]
    && d.cls == Discovery && d.scope == [(name, v)]
    && a.entity.provenance.asOf == b.entity.provenance.asOf
    && !Text.AtMost(d.entity.provenance.asOf, a.entity.provenance.asOf)
  }

  lemma {:induction false} DiscoveryIsHeard(a: Claim, b: Claim, d: Claim, name: string, v: Value, w: Value)
    requires Scopes(a, b, d, name, v, w)
    ensures Resolve([a, b, d]).Merged? && Resolve([a, b, d]).entity.provenance.asOf == d.entity.provenance.asOf
  {
    FirstRegistryDeclares(a, b, d, name, v);
    NamesakeOfOne(d, name, v, v);
    Text.AtMostTotal(d.entity.provenance.asOf, a.entity.provenance.asOf);
    Text.AtMostTotal(d.entity.provenance.asOf, d.entity.provenance.asOf);
    hide Resolve, IsNamesake, DeclaredFacets, Mergeable, Text.AtMost, FacetsOf;
    LatestIsChosen([a, b, d], d);
  }

  lemma {:induction false} NamesakeIsSetAside(a: Claim, b: Claim, d: Claim, name: string, v: Value, w: Value)
    requires Scopes(a, b, d, name, v, w) && v != w
    ensures Resolve([b, a, d]).Merged? && Resolve([b, a, d]).entity.provenance.asOf == a.entity.provenance.asOf
  {
    SwappedIsMergeable(a, b, d);
    FirstRegistryDeclares(b, a, d, name, w);
    NamesakeOfOne(d, name, v, w);
    Text.AtMostTotal(a.entity.provenance.asOf, a.entity.provenance.asOf);
    assert !IsNamesake(a, map[name := w]);
    hide Resolve, IsNamesake, DeclaredFacets, Mergeable, Text.AtMost, FacetsOf;
    LatestIsChosen([b, a, d], a);
  }

  /** Two registries that disagree on the facet a discovery scope is written in make arrival order
      visible: whether the discovery is a namesake, and with it the as-of, depends on which registry
      came first. */
  lemma {:induction false} AsOfDependsOnOrder(a: Claim, b: Claim, d: Claim, name: string, v: Value, w: Value)
    requires Scopes(a, b, d, name, v, w) && v != w
    ensures multiset([a, b, d]) == multiset([b, a, d])
    ensures Resolve([a, b, d]).Merged? && Resolve([b, a, d]).Merged?
    ensures Resolve([a, b, d]).entity.provenance.asOf != Resolve([b, a, d]).entity.provenance.asOf
  {
    hide Resolve, Mergeable, Text.AtMost, IsRegistry, FacetsOf;
    DiscoveryIsHeard(a, b, d, name, v, w);
    NamesakeIsSetAside(a, b, d, name, v, w);
    Text.AtMostTotal(d.entity.provenance.asOf, d.entity.provenance.asOf);
    SwapFirst(a, b, d);
  }

  lemma {:induction false} SwapFirst(a: Claim, b: Claim, d: Claim)
    ensures multiset([a, b, d]) == multiset([b, a, d])
  {
    assert multiset([a, b, d]) == multiset{a, b, d};
  }
}
