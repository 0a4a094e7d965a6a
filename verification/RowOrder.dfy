/** Which of several claims a merge credits, and exactly when arrival order can be seen in the
    merged fields and in the merged row (`console/index/merge.py:115-217`). */
module RowOrder {
  import opened Wrappers
  import opened Model
  import opened Sorting
  import opened Merge
  import opened MergeOrder
  import Text

  // -------------------------------------------------------------- the candidates of a merge

  ghost function HoldersOf(peers: set<Claim>, k: Key): set<Claim> { set c | c in peers && k in c.entity.fields }

  /** Those first in line for the state; everybody when nobody is admissible. */
  ghost function LeadersOf(peers: set<Claim>): set<Claim> {
    if exists c :: c in peers && Admissible(c) then set c | c in peers && Leads(peers, c) else peers
  }

  predicate Stamps(c: Claim) { c.entity.provenance.asOf != "" }

  ghost predicate Latest(peers: set<Claim>, c: Claim) {
    c in peers && forall b :: b in peers ==> Text.AtMost(b.entity.provenance.asOf, c.entity.provenance.asOf)
  }

  ghost function LatestOf(peers: set<Claim>): set<Claim> { set c | c in peers && Stamps(c) && Latest(peers, c) }

  /** Of the best class there is among the candidates. */
  ghost predicate Foremost(candidates: set<Claim>, c: Claim) {
    c in candidates && forall b :: b in candidates ==> ClassRank(c) <= ClassRank(b)
  }

  ghost predicate Tied(candidates: set<Claim>) {
    exists c, d :: Foremost(candidates, c) && Foremost(candidates, d) && c != d
  }

  /** `c` stands before every other candidate in `s`. */
  ghost predicate IsFirst(s: seq<Claim>, candidates: set<Claim>, c: Claim) {
    exists x: nat :: FirstAt(s, candidates, c, x)
  }

  ghost predicate FirstAt(s: seq<Claim>, candidates: set<Claim>, c: Claim, x: nat) {
    x < |s| && s[x] == c && c in candidates && forall j :: 0 <= j < x ==> s[j] !in candidates
  }

  lemma {:induction false} FirstIsForemost(s: seq<Claim>, candidates: set<Claim>, c: Claim)
    requires Ordered(s, ClassRank) && IsFirst(s, candidates, c) && forall b :: b in candidates ==> b in s
    ensures Foremost(candidates, c)
  {
    var x: nat :| FirstAt(s, candidates, c, x);
    forall b | b in candidates ensures ClassRank(c) <= ClassRank(b) {
      var j :| 0 <= j < |s| && s[j] == b;
    }
  }

  lemma {:induction false} OneFirst(s: seq<Claim>, candidates: set<Claim>, c: Claim, d: Claim)
    requires IsFirst(s, candidates, c) && IsFirst(s, candidates, d)
    ensures c == d
  {
    var x: nat :| FirstAt(s, candidates, c, x);
    var y: nat :| FirstAt(s, candidates, d, y);
  }

  lemma {:induction false} KeptFirst<T>(s: seq<T>, key: T -> int, k: int) returns (x: nat)
    requires Keep(s, key, k) != []
    ensures x < |s| && s[x] == Keep(s, key, k)[0] && key(s[x]) == k
    ensures forall j :: 0 <= j < x ==> key(s[j]) != k
  {
    if key(s[0]) == k {
      x := 0;
    } else {
      x := KeptFirst(s[1..], key, k);
      forall j | 0 <= j < x + 1 ensures key(s[j]) != k {
        assert j > 0 ==> s[j] == s[1..][j - 1];
      }
      x := x + 1;
    }
  }

  /** Brought to the front of its permutation, a claim stands before all others of its class. */
  lemma {:induction false} LeadingStandsFirst(claims: seq<Claim>, i: nat) returns (x: nat)
    requires i < |claims| && claims[i] in Line(Leading(claims, i))
    ensures var s := Ranked(Leading(claims, i));
      x < |s| && s[x] == claims[i] && forall j :: 0 <= j < x ==> ClassRank(s[j]) < ClassRank(claims[i])
  {
    var q, c := Leading(claims, i), claims[i];
    var declared, s := DeclaredFacets(q), Ranked(q);
    assert q[0] == c;
    LineMeaning(q);
    SortIsStable(Peers(q, declared), ClassRank, ClassRank(c));
    assert Peers(q, declared) == [c] + Peers(q[1..], declared);
    hide Peers, DeclaredFacets, Ranked, IsNamesake;
    KeepHead(c, Peers(q[1..], declared), ClassRank, ClassRank(c));
    x := KeptFirst(s, ClassRank, ClassRank(c));
  }

  /** So a foremost candidate brought to the front is the one chosen. */
  lemma {:induction false} LeadingIsChosen(claims: seq<Claim>, i: nat, candidates: set<Claim>, d: Claim)
    requires i < |claims| && claims[i] in Line(Leading(claims, i)) && Foremost(candidates, claims[i])
    requires IsFirst(Ranked(Leading(claims, i)), candidates, d)
    ensures d == claims[i]
  {
    var s := Ranked(Leading(claims, i));
    var x := LeadingStandsFirst(claims, i);
    var y: nat :| FirstAt(s, candidates, d, y);
    hide Ranked;
    assert !(y < x);
  }

  // ----------------------------------------------------------------- which claim is chosen

  ghost predicate HolderChosen(claims: seq<Claim>, k: Key, e: Entity) {
    exists c :: IsFirst(Ranked(claims), HoldersOf(Line(claims), k), c) && Credited(e, k, c)
  }

  /** `e` holds `c`'s value for `k`, and says so. */
  predicate Credited(e: Entity, k: Key, c: Claim) {
    && k in e.fields && k in c.entity.fields && e.fields[k] == c.entity.fields[k]
    && Of(k) in e.fieldSources && e.fieldSources[Of(k)] == c.entity.provenance
  }

  lemma {:induction false} TableShows(claims: seq<Claim>, k: Key)
    requires Peered(claims)
    ensures Resolve(claims).Merged?
    ensures var t, e := PutClaims(Ranked(claims), |Ranked(claims)|), Resolve(claims).entity;
      e.fields == t.sink && (k in t.sources ==> Of(k) in e.fieldSources && e.fieldSources[Of(k)] == t.sources[k])
  {
    hide PutClaims, ResolveState, Freshest, AllConflicts, Ranked, DeclaredFacets, OwnProvenance;
  }

  lemma {:induction false} HolderStandsFirst(s: seq<Claim>, peers: set<Claim>, k: Key)
    requires forall c :: c in s <==> c in peers
    ensures Holder(s, k) < |s| <==> HoldersOf(peers, k) != {}
    ensures Holder(s, k) < |s| ==> FirstAt(s, HoldersOf(peers, k), s[Holder(s, k)], Holder(s, k))
  {
    var h := Holder(s, k);
    hide Holder;
    forall c | c in HoldersOf(peers, k) ensures h < |s| {
      var j :| 0 <= j < |s| && s[j] == c;
    }
    if h < |s| {
      assert s[h] in s && s[h] in HoldersOf(peers, k);
    }
  }

  /** A key goes to the first holder in line: its value, and the credit for it. */
  lemma {:induction false} HolderIsFirst(claims: seq<Claim>, k: Key)
    requires Peered(claims)
    ensures Resolve(claims).Merged?
    ensures k in Resolve(claims).entity.fields <==> HoldersOf(Line(claims), k) != {}
    ensures k in Resolve(claims).entity.fields ==> HolderChosen(claims, k, Resolve(claims).entity)
  {
    var s := Ranked(claims);
    LineMeaning(claims);
    TableShows(claims, k);
    RankedIsSpread(claims);
    PutClaimsMeaning(s, |s|, k);
    HolderStandsFirst(s, Line(claims), k);
    hide Resolve, Peered, PutClaims, Ranked, Holder, HoldersOf, FirstAt, Line, Spread;
    if Holder(s, k) < |s| {
      assert IsFirst(s, HoldersOf(Line(claims), k), s[Holder(s, k)]);
      assert Credited(Resolve(claims).entity, k, s[Holder(s, k)]);
    }
  }

  // ----------------------------------------------------- when the fields ignore arrival order

  ghost predicate SameFields(p: seq<Claim>, q: seq<Claim>) {
    && p != [] && q != [] && Resolve(p).Merged? && Resolve(q).Merged?
    && Resolve(p).entity.fields == Resolve(q).entity.fields
  }

  ghost predicate FieldsIgnoreOrder(claims: seq<Claim>) {
    forall q | multiset(q) == multiset(claims) :: SameFields(claims, q)
  }

  /** Some two claims that outrank every other holder of `k`, of one class, disagree on it. */
  ghost predicate Contested(claims: seq<Claim>, k: Key) { exists c, d :: Disagree(PeerSet(claims), c, d, k) }

  ghost predicate Uncontested(claims: seq<Claim>) { forall k :: !Contested(claims, k) }

  lemma {:induction false} RegistryIsHeard(claims: seq<Claim>, c: Claim)
    requires claims != [] && c in claims && IsRegistry(c)
    ensures c in Line(claims) && c in PeerSet(claims)
  {
    LineMeaning(claims);
  }

  /** Registries that disagree on a scope facet contest it. */
  lemma {:induction false} UncontestedScopesAgree(claims: seq<Claim>)
    requires claims != [] && Uncontested(claims)
    ensures ScopesAgree(claims)
  {
    forall c, d, name | c in claims && d in claims && IsRegistry(c) && IsRegistry(d) && Scoped(claims, name)
      && Facet(name) in c.entity.fields && Facet(name) in d.entity.fields
      ensures c.entity.fields[Facet(name)] == d.entity.fields[Facet(name)]
    {
      RegistryIsHeard(claims, c);
      RegistryIsHeard(claims, d);
      hide PeerSet, Scoped;
      assert !Contested(claims, Facet(name));
      assert !Disagree(PeerSet(claims), c, d, Facet(name));
    }
  }

  lemma {:induction false} ForemostHoldersDisagree(peers: set<Claim>, c: Claim, d: Claim, k: Key)
    requires Foremost(HoldersOf(peers, k), c) && Foremost(HoldersOf(peers, k), d)
    ensures c.entity.fields[k] != d.entity.fields[k] <==> Disagree(peers, c, d, k)
  {
  }

  /** What the merge holds for `k` is what a foremost holder among the peers holds. */
  lemma {:induction false} FieldComesFrom(claims: seq<Claim>, k: Key)
    requires Peered(claims)
    ensures Resolve(claims).Merged?
    ensures k in Resolve(claims).entity.fields <==> HoldersOf(Line(claims), k) != {}
    ensures k in Resolve(claims).entity.fields ==>
      exists c :: Foremost(HoldersOf(Line(claims), k), c) && Credited(Resolve(claims).entity, k, c)
  {
    HolderIsFirst(claims, k);
    LineMeaning(claims);
    hide Resolve, Ranked, Line, IsFirst, Foremost, Credited, Peered;
    if k in Resolve(claims).entity.fields {
      var c :| IsFirst(Ranked(claims), HoldersOf(Line(claims), k), c) && Credited(Resolve(claims).entity, k, c);
      FirstIsForemost(Ranked(claims), HoldersOf(Line(claims), k), c);
    }
  }

  predicate AgreeOn(a: Fields, b: Fields, k: Key) { (k in a <==> k in b) && (k in a ==> a[k] == b[k]) }

  lemma {:induction false} AgreeEverywhere(a: Fields, b: Fields)
    requires forall k :: AgreeOn(a, b, k)
    ensures a == b
  {
    forall k ensures k in a <==> k in b ensures k in a ==> a[k] == b[k] {
      assert AgreeOn(a, b, k);
    }
  }

  lemma {:induction false} UncontestedFieldAgrees(p: seq<Claim>, q: seq<Claim>, k: Key)
    requires multiset(p) == multiset(q) && Peered(p) && ScopesAgree(p) && !Contested(p, k)
    ensures q != [] && Resolve(p).Merged? && Resolve(q).Merged?
    ensures AgreeOn(Resolve(p).entity.fields, Resolve(q).entity.fields, k)
  {
    PermutedClaims(p, q);
    LineIsPeerSet(p);
    LineIsPeerSet(q);
    FieldComesFrom(p, k);
    FieldComesFrom(q, k);
    var peers := PeerSet(p);
    hide Resolve, Line, PeerSet, Foremost, Peered, ScopesAgree;
    if k in Resolve(p).entity.fields {
      var c :| Foremost(HoldersOf(peers, k), c) && Credited(Resolve(p).entity, k, c);
      var d :| Foremost(HoldersOf(peers, k), d) && Credited(Resolve(q).entity, k, d);
      ForemostHoldersDisagree(peers, c, d, k);
    }
  }

  /** A foremost holder brought to the front decides the key. */
  lemma {:induction false} LeadingHolds(claims: seq<Claim>, i: nat, k: Key)
    requires Peered(claims) && i < |claims|
    requires var q := Leading(claims, i); claims[i] in Line(q) && Foremost(HoldersOf(Line(q), k), claims[i])
    ensures var q := Leading(claims, i);
      && multiset(q) == multiset(claims) && Peered(q) && Resolve(q).Merged?
      && Credited(Resolve(q).entity, k, claims[i])
  {
    var q := Leading(claims, i);
    LeadingPermutes(claims, i);
    PermutedClaims(claims, q);
    HolderIsFirst(q, k);
    hide Resolve, Peered, Line, Ranked, Credited, Leading, IsFirst;
    assert k in Resolve(q).entity.fields;
    var d :| IsFirst(Ranked(q), HoldersOf(Line(q), k), d) && Credited(Resolve(q).entity, k, d);
    LeadingIsChosen(claims, i, HoldersOf(Line(q), k), d);
  }

  lemma {:induction false} TwoLeadersTwoFields(claims: seq<Claim>, i: nat, j: nat, k: Key)
    requires Peered(claims) && i < |claims| && j < |claims|
    requires var q := Leading(claims, i); claims[i] in Line(q) && Foremost(HoldersOf(Line(q), k), claims[i])
    requires var q := Leading(claims, j); claims[j] in Line(q) && Foremost(HoldersOf(Line(q), k), claims[j])
    requires claims[i].entity.fields[k] != claims[j].entity.fields[k]
    ensures !FieldsIgnoreOrder(claims)
  {
    LeadingHolds(claims, i, k);
    LeadingHolds(claims, j, k);
    hide Resolve, Peered, Leading, Foremost, Line, HoldersOf;
    assert !(SameFields(claims, Leading(claims, i)) && SameFields(claims, Leading(claims, j)));
  }

  lemma {:induction false} RegistriesShowOrder(claims: seq<Claim>)
    requires Peered(claims) && !ScopesAgree(claims)
    ensures !FieldsIgnoreOrder(claims)
  {
    var c, d, name :| c in claims && d in claims && IsRegistry(c) && IsRegistry(d) && Scoped(claims, name)
      && Facet(name) in c.entity.fields && Facet(name) in d.entity.fields
      && c.entity.fields[Facet(name)] != d.entity.fields[Facet(name)];
    var i: nat :| i < |claims| && claims[i] == c;
    var j: nat :| j < |claims| && claims[j] == d;
    hide FieldsIgnoreOrder, ScopesAgree, Scoped, Peered;
    LeadingRegistry(claims, i, Facet(name));
    LeadingRegistry(claims, j, Facet(name));
    hide Leading, Line, HoldersOf, Foremost;
    TwoLeadersTwoFields(claims, i, j, Facet(name));
  }

  lemma {:induction false} LeadingRegistry(claims: seq<Claim>, i: nat, k: Key)
    requires i < |claims| && IsRegistry(claims[i]) && k in claims[i].entity.fields
    ensures var q := Leading(claims, i); claims[i] in Line(q) && Foremost(HoldersOf(Line(q), k), claims[i])
  {
    var q := Leading(claims, i);
    assert q[0] == claims[i];
    RegistryIsHeard(q, claims[i]);
    hide Line;
  }

  lemma {:induction false} ContestShowsOrder(claims: seq<Claim>, k: Key)
    requires Peered(claims) && ScopesAgree(claims) && Contested(claims, k)
    ensures !FieldsIgnoreOrder(claims)
  {
    var peers := PeerSet(claims);
    var c, d :| Disagree(peers, c, d, k);
    assert c in claims && d in claims;
    var i: nat :| i < |claims| && claims[i] == c;
    var j: nat :| j < |claims| && claims[j] == d;
    assert Foremost(HoldersOf(peers, k), c) && Foremost(HoldersOf(peers, k), d);
    hide FieldsIgnoreOrder, ScopesAgree, Peered, Foremost, HoldersOf, PeerSet;
    LeadingLine(claims, i);
    LeadingLine(claims, j);
    hide Leading, Line;
    TwoLeadersTwoFields(claims, i, j, k);
  }

  lemma {:induction false} LeadingLine(claims: seq<Claim>, i: nat)
    requires i < |claims| && Peered(claims) && ScopesAgree(claims)
    ensures Line(Leading(claims, i)) == PeerSet(claims)
  {
    LeadingPermutes(claims, i);
    PermutedClaims(claims, Leading(claims, i));
    LineIsPeerSet(Leading(claims, i));
  }

  /** Arrival order is invisible in the merged fields exactly when no field is contested. */
  lemma {:induction false} FieldsIgnoreOrderIff(claims: seq<Claim>)
    requires Peered(claims)
    ensures FieldsIgnoreOrder(claims) <==> Uncontested(claims)
  {
    assert claims != [];
    hide Peered, ScopesAgree, Contested, Resolve;
    if Uncontested(claims) {
      UncontestedScopesAgree(claims);
      forall q | multiset(q) == multiset(claims) ensures SameFields(claims, q) {
        UncontestedFieldsAgree(claims, q);
      }
    } else {
      var k :| Contested(claims, k);
      if ScopesAgree(claims) {
        ContestShowsOrder(claims, k);
      } else {
        RegistriesShowOrder(claims);
      }
    }
  }

  lemma {:induction false} UncontestedFieldsAgree(p: seq<Claim>, q: seq<Claim>)
    requires multiset(p) == multiset(q) && Peered(p) && Uncontested(p)
    ensures SameFields(p, q)
  {
    UncontestedScopesAgree(p);
    UncontestedFieldAgrees(p, q, Detail(""));
    hide Peered, ScopesAgree, Contested, Resolve, AgreeOn;
    forall k ensures AgreeOn(Resolve(p).entity.fields, Resolve(q).entity.fields, k) {
      UncontestedFieldAgrees(p, q, k);
    }
    AgreeEverywhere(Resolve(p).entity.fields, Resolve(q).entity.fields);
  }

  /** And that is what the row itself says: no field is listed among its conflicts. */
  lemma {:induction false} FieldsIgnoreOrderUnlessConflicted(claims: seq<Claim>)
    requires Peered(claims)
    ensures Resolve(claims).Merged?
    ensures FieldsIgnoreOrder(claims) <==> forall k :: Of(k) !in Resolve(claims).entity.conflicts
  {
    MergeMeaning(claims);
    assert claims != [];
    hide Resolve, FieldsIgnoreOrder, Peered, IsVerdict, IsLatest, Conflicts, Uncontested, ScopesAgree;
    FieldsIgnoreOrderIff(claims);
    ConflictsShow(claims);
  }

  lemma {:induction false} ConflictAt(peers: set<Claim>, k: Key)
    ensures Of(k) in Conflicts(peers) <==> exists c, d :: Disagree(peers, c, d, k)
  {
    hide StatesDisagree;
    if c, d :| Disagree(peers, c, d, k) {
      assert c in peers && k in c.entity.fields;
    }
  }

  lemma {:induction false} ConflictsShow(claims: seq<Claim>)
    requires claims != []
    ensures Uncontested(claims) <==> forall k :: Of(k) !in Conflicts(Line(claims))
  {
    if ScopesAgree(claims) {
      LineIsPeerSet(claims);
      hide Conflicts, Disagree, Line, PeerSet, ScopesAgree;
      forall k ensures Of(k) in Conflicts(Line(claims)) <==> Contested(claims, k) {
        ConflictAt(Line(claims), k);
      }
    } else {
      var k := ContestedFacet(claims);
      if Uncontested(claims) {
        UncontestedScopesAgree(claims);
      }
    }
  }

  lemma {:induction false} ContestedFacet(claims: seq<Claim>) returns (k: Key)
    requires claims != [] && !ScopesAgree(claims)
    ensures Of(k) in Conflicts(Line(claims))
  {
    var c, d, name :| c in claims && d in claims && IsRegistry(c) && IsRegistry(d) && Scoped(claims, name)
      && Facet(name) in c.entity.fields && Facet(name) in d.entity.fields
      && c.entity.fields[Facet(name)] != d.entity.fields[Facet(name)];
    RegistryIsHeard(claims, c);
    RegistryIsHeard(claims, d);
    k := Facet(name);
    ForemostRegistry(Line(claims), c, d, k);
    hide Conflicts, Line, PeerSet, Disagree;
    ConflictAt(Line(claims), k);
  }

  lemma {:induction false} ForemostRegistry(peers: set<Claim>, c: Claim, d: Claim, k: Key)
    requires c in peers && d in peers && IsRegistry(c) && IsRegistry(d)
    requires k in c.entity.fields && k in d.entity.fields && c.entity.fields[k] != d.entity.fields[k]
    ensures Disagree(peers, c, d, k)
  {
  }

  // ------------------------------------------------------- the state's winner and the as-of

  lemma {:induction false} KeepAppends<T>(a: seq<T>, b: seq<T>, key: T -> int, k: int)
    ensures Keep(a + b, key, k) == Keep(a, key, k) + Keep(b, key, k)
  {
    if a == [] {
      assert a + b == b;
    } else {
      KeepAppends(a[1..], b, key, k);
      KeepHead(a[0], a[1..], key, k);
      KeepHead(a[0], a[1..] + b, key, k);
      assert a == [a[0]] + a[1..] && a + b == [a[0]] + (a[1..] + b);
    }
  }

  lemma {:induction false} KeptNone<T>(s: seq<T>, key: T -> int, k: int)
    requires Keep(s, key, k) == []
    ensures forall x :: x in s ==> key(x) != k
  {
    if s != [] {
      KeptNone(s[1..], key, k);
      assert s == [s[0]] + s[1..];
    }
  }

  predicate Standing(c: Claim, r: int) { Admissible(c) && StateRank(c) == r }

  /** The first admissible claim of a state rank, seen from the line itself. */
  lemma {:induction false} FirstStanding(s: seq<Claim>, r: int) returns (y: nat)
    requires Keep(AdmissibleOf(s), StateRank, r) != []
    ensures y < |s| && s[y] == Keep(AdmissibleOf(s), StateRank, r)[0] && Standing(s[y], r)
    ensures forall j :: 0 <= j < y ==> !Standing(s[j], r)
  {
    var n := |s| - 1;
    var last := if Admissible(s[n]) then [s[n]] else [];
    KeepAppends(AdmissibleOf(s[..n]), last, StateRank, r);
    if Keep(AdmissibleOf(s[..n]), StateRank, r) != [] {
      y := FirstStanding(s[..n], r);
    } else {
      y := n;
      KeptNone(AdmissibleOf(s[..n]), StateRank, r);
      AdmissibleOfMembers(s[..n]);
      forall j | 0 <= j < n ensures !Standing(s[j], r) {
        assert s[..n][j] == s[j];
      }
    }
  }

  /** The leaders are the admissible claims of the winner's rank. */
  lemma {:induction false} LeadersStand(peers: set<Claim>, best: Claim)
    requires Leads(peers, best)
    ensures forall c :: c in LeadersOf(peers) <==> c in peers && Standing(c, StateRank(best))
  {
  }

  lemma {:induction false} BestIsFirst(s: seq<Claim>, peers: set<Claim>)
    requires AdmissibleOf(s) != [] && forall c :: c in s <==> c in peers
    ensures var ranked := SortBy(AdmissibleOf(s), StateRank);
      ranked != [] && IsFirst(s, LeadersOf(peers), ranked[0])
  {
    var a := AdmissibleOf(s);
    var ranked := SortBy(a, StateRank);
    BestLeads(s, peers);
    var best := ranked[0];
    var r := StateRank(best);
    SortIsStable(a, StateRank, r);
    KeepHead(best, ranked[1..], StateRank, r);
    assert ranked == [best] + ranked[1..];
    var y := FirstStanding(s, r);
    LeadersStand(peers, best);
    hide LeadersOf, AdmissibleOf, Leads, Standing;
    assert s[y] in s;
    assert FirstAt(s, LeadersOf(peers), best, y);
  }

  /** The state the winner brings: its own, or UNREPORTED when nobody is admissible. */
  ghost function Brought(peers: set<Claim>, c: Claim): StateValue {
    if exists b :: b in peers && Admissible(b) then c.entity.state else UNREPORTED
  }

  /** The state goes to the first leader in line. */
  lemma {:induction false} WinnerIsFirst(s: seq<Claim>, peers: set<Claim>) returns (c: Claim)
    requires s != [] && forall x :: x in s <==> x in peers
    ensures IsFirst(s, LeadersOf(peers), c)
    ensures ResolveState(s).winner == c.entity.provenance && ResolveState(s).state == Brought(peers, c)
  {
    AdmissibleOfMembers(s);
    if AdmissibleOf(s) != [] {
      BestIsFirst(s, peers);
      c := SortBy(AdmissibleOf(s), StateRank)[0];
      assert AdmissibleOf(s)[0] in AdmissibleOf(s);
    } else {
      c := s[0];
      assert SortBy(AdmissibleOf(s), StateRank) == [];
      assert s[0] in s;
      assert FirstAt(s, LeadersOf(peers), c, 0);
    }
  }

  /** The as-of goes to the first in line of those that carry the latest one. */
  lemma {:induction false} FreshestIsFirst(s: seq<Claim>, fallback: Provenance) returns (x: nat)
    requires Stamped(s)
    ensures x < |s| && Freshest(s, fallback) == s[x].entity.provenance && Stamps(s[x])
    ensures forall j :: 0 <= j < |s| ==> Text.AtMost(s[j].entity.provenance.asOf, s[x].entity.provenance.asOf)
    ensures forall j :: 0 <= j < x ==> !Text.AtMost(s[x].entity.provenance.asOf, s[j].entity.provenance.asOf)
  {
    var n := |s| - 1;
    var last := s[n].entity.provenance.asOf;
    assert s == s[..n] + [s[n]];
    Text.AtMostTotal(last, last);
    hide Text.AtMost;
    if Stamped(s[..n]) {
      x := FreshestIsFirst(s[..n], fallback);
      var most := s[x].entity.provenance.asOf;
      assert most == Freshest(s[..n], fallback).asOf;
      if Stamps(s[n]) && !Text.AtMost(last, most) {
        Text.AtMostTotal(last, most);
        forall j | 0 <= j < n
          ensures Text.AtMost(s[j].entity.provenance.asOf, last) && !Text.AtMost(last, s[j].entity.provenance.asOf)
        {
          assert s[..n][j] == s[j];
          Text.AtMostTransitive(s[j].entity.provenance.asOf, most, last);
          if Text.AtMost(last, s[j].entity.provenance.asOf) {
            Text.AtMostTransitive(last, s[j].entity.provenance.asOf, most);
          }
        }
        x := n;
      } else {
        EmptyIsLeast(most);
        assert forall j :: 0 <= j < n ==> s[..n][j] == s[j];
      }
    } else {
      x := n;
      forall j | 0 <= j < n
        ensures Text.AtMost(s[j].entity.provenance.asOf, last) && !Text.AtMost(last, s[j].entity.provenance.asOf)
      {
        assert s[..n][j] == s[j] && s[j] in s[..n];
        assert s[j].entity.provenance.asOf == "";
        EmptyIsLeast(last);
      }
    }
  }

  lemma {:induction false} EmptyIsLeast(a: string)
    ensures Text.AtMost("", a) && (a != "" ==> !Text.AtMost(a, ""))
  {
  }

  // ---------------------------------------------------------------------------- the losers

  lemma {:induction false} SetAsideMeaning(s: seq<Claim>, l: Loser)
    ensures l in SetAside(s) <==> exists c :: c in s && !Admissible(c) && l == StateLoser(c)
  {
    if s != [] {
      SetAsideMeaning(s[..|s| - 1], l);
      assert s == s[..|s| - 1] + [s[|s| - 1]];
      hide Admissible;
    }
  }

  lemma {:induction false} BeatenMeaning(best: Claim, s: seq<Claim>, l: Loser)
    ensures l in Beaten(best, s) <==> exists c :: c in s && c.entity.state != best.entity.state && l == StateLoser(c)
  {
    if s != [] {
      BeatenMeaning(best, s[..|s| - 1], l);
      assert s == s[..|s| - 1] + [s[|s| - 1]];
    }
  }

  /** Whoever proposed another state than the one brought, or one it may not propose. */
  ghost predicate LosesState(peers: set<Claim>, state: StateValue, l: Loser) {
    exists c :: c in peers && (!Admissible(c) || c.entity.state != state) && l == StateLoser(c)
  }

  lemma {:induction false} StateLosersMeaning(s: seq<Claim>, peers: set<Claim>, l: Loser)
    requires s != [] && forall x :: x in s <==> x in peers
    ensures l in ResolveState(s).losers <==> LosesState(peers, ResolveState(s).state, l)
  {
    var a := AdmissibleOf(s);
    var ranked := SortBy(a, StateRank);
    AdmissibleOfMembers(s);
    SortByMeaning(a, StateRank);
    SetAsideMeaning(s, l);
    if ranked != [] {
      BeatenMeaning(ranked[0], ranked[1..], l);
      assert ranked == [ranked[0]] + ranked[1..];
    } else {
      assert a == [];
    }
    hide AdmissibleOf, SortBy, SetAside, Beaten, StateLoser, Ordered;
  }

  /** Whoever held another value for a key than the one kept. */
  ghost predicate LosesField(peers: set<Claim>, fields: Fields, l: Loser) {
    exists c, k :: c in peers && k in c.entity.fields && k in fields &&
        fields[k] != c.entity.fields[k] && l == LostField(c, k)
  }

  ghost predicate LostAt(s: seq<Claim>, fields: Fields, j: nat, k: Key, l: Loser) {
    j < |s| && k in s[j].entity.fields && k in fields && fields[k] != s[j].entity.fields[k] && l == LostField(s[j], k)
  }

  lemma {:induction false} PutClaimLosers(s: seq<Claim>, c: Claim, t: FieldTable, l: Loser)
    requires t.sink.Keys == t.sources.Keys
    ensures l in PutClaim(s, c, t).losers <==>
      l in t.losers || exists k :: k in Lost(c, t) && l == LostField(c, k)
  {
    var keys := c.entity.fields.Keys;
    assert keys * Lost(c, t) == Lost(c, t);
  }

  ghost predicate LostBelow(s: seq<Claim>, fields: Fields, n: nat, l: Loser) {
    exists j: nat, k :: j < n && LostAt(s, fields, j, k, l)
  }

  /** One claim's turn, and what the table held before it, seen from one key. */
  ghost predicate Turn(s: seq<Claim>, n: nat, t: FieldTable, now: FieldTable, k: Key)
    requires n < |s|
  {
    Held(s, n, t, k) && Puts(s, s[n], t, now, k)
  }

  /** What the first `n` claims leave as losers: every value that differs from the one kept. */
  lemma {:induction false} TableLosers(s: seq<Claim>, n: nat, l: Loser)
    requires n <= |s| && Spread(s)
    ensures l in PutClaims(s, n).losers <==> LostBelow(s, PutClaims(s, n).sink, n, l)
  {
    if n > 0 {
      var m := n - 1;
      var t, now := PutClaims(s, m), PutClaims(s, n);
      hide PutClaim, Held, Puts, LostBelow, Spread, Lost, LostField;
      TableLosers(s, m, l);
      PutClaimLosers(s, s[m], t, l);
      forall k ensures Turn(s, m, t, now, k) {
        PutClaimsMeaning(s, m, k);
        PutClaimAt(s, s[m], t, k);
      }
      hide PutClaims, Turn;
      LosersNext(s, m, t, now, l);
    }
  }

  lemma {:induction false} LosersNext(s: seq<Claim>, n: nat, t: FieldTable, now: FieldTable, l: Loser)
    requires n < |s| && Spread(s) && t.sink.Keys == t.sources.Keys && forall k :: Turn(s, n, t, now, k)
    requires l in t.losers <==> LostBelow(s, t.sink, n, l)
    requires l in now.losers <==> l in t.losers || exists k :: k in Lost(s[n], t) && l == LostField(s[n], k)
    ensures l in now.losers <==> LostBelow(s, now.sink, n + 1, l)
  {
    forall j: nat, k | j < n ensures LostAt(s, t.sink, j, k, l) <==> LostAt(s, now.sink, j, k, l) {
      assert Turn(s, n, t, now, k);
      LostBefore(s, n, t, now, j, k, l);
    }
    forall k ensures LostAt(s, now.sink, n, k, l) <==> k in Lost(s[n], t) && l == LostField(s[n], k) {
      assert Turn(s, n, t, now, k);
      LostByNow(s, n, t, now, k);
    }
    hide Turn, Lost, LostField, LostAt, Spread;
    if j: nat, k :| j < n && LostAt(s, t.sink, j, k, l) {
      assert j < n + 1 && LostAt(s, now.sink, j, k, l);
    }
    if k :| k in Lost(s[n], t) && l == LostField(s[n], k) {
      assert n < n + 1 && LostAt(s, now.sink, n, k, l);
    }
    if j: nat, k :| j < n + 1 && LostAt(s, now.sink, j, k, l) {
      assert j < n ==> LostAt(s, t.sink, j, k, l);
    }
  }

  lemma {:induction false} LostByNow(s: seq<Claim>, n: nat, t: FieldTable, now: FieldTable, k: Key)
    requires n < |s| && Spread(s) && Held(s, n, t, k) && Puts(s, s[n], t, now, k)
    ensures k in Lost(s[n], t) <==>
      k in s[n].entity.fields && k in now.sink && now.sink[k] != s[n].entity.fields[k]
  {
  }

  lemma {:induction false} LostBefore(s: seq<Claim>, n: nat, t: FieldTable, now: FieldTable, j: nat, k: Key, l: Loser)
    requires n < |s| && j < n && Held(s, n, t, k) && Puts(s, s[n], t, now, k)
    ensures LostAt(s, t.sink, j, k, l) <==> LostAt(s, now.sink, j, k, l)
  {
    if k in s[j].entity.fields {
      assert Holder(s, k) <= j;
    }
    hide Holder, LostField;
  }

  lemma {:induction false} FieldLosersMeaning(s: seq<Claim>, peers: set<Claim>, l: Loser)
    requires Spread(s) && forall x :: x in s <==> x in peers
    ensures l in PutClaims(s, |s|).losers <==> LosesField(peers, PutClaims(s, |s|).sink, l)
  {
    TableLosers(s, |s|, l);
    var fields := PutClaims(s, |s|).sink;
    hide PutClaims, LostField, Spread;
    if c, k :| (c in peers && k in c.entity.fields && k in fields &&
                fields[k] != c.entity.fields[k] && l == LostField(c, k)) {
      var j: nat :| j < |s| && s[j] == c;
      assert LostAt(s, fields, j, k, l);
    }
    if LostBelow(s, fields, |s|, l) {
      var j: nat, k :| j < |s| && LostAt(s, fields, j, k, l);
      assert s[j] in s && s[j] in peers;
    }
  }

  // --------------------------------------------------------- when the row ignores arrival order

  ghost predicate OneId(claims: seq<Claim>) { forall c, d :: c in claims && d in claims ==> c.entity.id == d.entity.id }

  /** Nothing the merge chooses is chosen among equals: no key has two foremost holders, the state
      no two foremost leaders, the as-of no two foremost latest stamps. */
  ghost predicate Untied(peers: set<Claim>) {
    (forall k :: !Tied(HoldersOf(peers, k))) && !Tied(LeadersOf(peers)) && !Tied(LatestOf(peers))
  }

  ghost predicate RowIgnoresOrder(claims: seq<Claim>) {
    forall q | multiset(q) == multiset(claims) :: SameRow(claims, q)
  }

  ghost predicate SameRow(p: seq<Claim>, q: seq<Claim>) { p != [] && q != [] && Resolve(p) == Resolve(q) }

  lemma {:induction false} NotTied(candidates: set<Claim>, c: Claim, d: Claim)
    requires !Tied(candidates) && Foremost(candidates, c) && Foremost(candidates, d)
    ensures c == d
  {
  }

  /** What a merge chooses, as the row shows it. */
  ghost predicate Chooses(claims: seq<Claim>, state: StateValue, winner: Provenance) {
    var peers := Line(claims);
    exists c :: IsFirst(Ranked(claims), LeadersOf(peers), c) &&
        winner == c.entity.provenance && state == Brought(peers, c)
  }

  lemma {:induction false} StateIsChosen(claims: seq<Claim>)
    requires Peered(claims)
    ensures Ranked(claims) != []
    ensures var v := ResolveState(Ranked(claims)); Chooses(claims, v.state, v.winner)
  {
    LineMeaning(claims);
    var c := WinnerIsFirst(Ranked(claims), Line(claims));
  }

  lemma {:induction false} LeadersAreHeard(peers: set<Claim>)
    ensures LeadersOf(peers) <= peers && LatestOf(peers) <= peers
  {
  }

  /** Untied leaders: one winner whatever the order. */
  lemma {:induction false} SameWinner(p: seq<Claim>, q: seq<Claim>)
    requires Peered(p) && Peered(q) && Line(p) == Line(q) && !Tied(LeadersOf(Line(p)))
    ensures Ranked(p) != [] && Ranked(q) != []
    ensures var v, w := ResolveState(Ranked(p)), ResolveState(Ranked(q)); v.state == w.state && v.winner == w.winner
  {
    var peers := Line(p);
    StateIsChosen(p);
    StateIsChosen(q);
    var v, w := ResolveState(Ranked(p)), ResolveState(Ranked(q));
    var c :| IsFirst(Ranked(p), LeadersOf(peers), c) && v.winner == c.entity.provenance && v.state == Brought(peers, c);
    var d :| IsFirst(Ranked(q), LeadersOf(peers), d) && w.winner == d.entity.provenance && w.state == Brought(peers, d);
    LeadersAreHeard(peers);
    LineMeaning(p);
    LineMeaning(q);
    hide Ranked, LeadersOf, IsFirst, ResolveState, Peered, Foremost, Tied;
    InLine(p);
    InLine(q);
    FirstIsForemost(Ranked(p), LeadersOf(peers), c);
    FirstIsForemost(Ranked(q), LeadersOf(peers), d);
    NotTied(LeadersOf(peers), c, d);
  }

  lemma {:induction false} InLine(claims: seq<Claim>)
    ensures forall c :: c in Line(claims) <==> c in Ranked(claims)
  {
    hide Ranked;
  }

  /** The as-of's source when some peer carries a stamp. */
  lemma {:induction false} AsOfIsChosen(claims: seq<Claim>, fallback: Provenance) returns (c: Claim)
    requires claims != [] && exists b :: b in Line(claims) && Stamps(b)
    ensures IsFirst(Ranked(claims), LatestOf(Line(claims)), c)
    ensures Freshest(Ranked(claims), fallback) == c.entity.provenance
  {
    var s, peers := Ranked(claims), Line(claims);
    InLine(claims);
    hide Ranked, Line, Text.AtMost, Freshest;
    var b :| b in peers && Stamps(b);
    assert Stamped(s);
    var x := FreshestIsFirst(s, fallback);
    c := s[x];
    assert s[x] in s;
    forall d | d in peers ensures Text.AtMost(d.entity.provenance.asOf, c.entity.provenance.asOf) {
      var j :| 0 <= j < |s| && s[j] == d;
    }
    forall j | 0 <= j < x ensures s[j] !in LatestOf(peers) {
      assert c in peers && !Text.AtMost(c.entity.provenance.asOf, s[j].entity.provenance.asOf);
    }
    assert FirstAt(s, LatestOf(peers), c, x);
  }

  lemma {:induction false} SameFreshest(p: seq<Claim>, q: seq<Claim>, fallback: Provenance)
    requires Peered(p) && Peered(q) && Line(p) == Line(q) && !Tied(LatestOf(Line(p)))
    ensures Freshest(Ranked(p), fallback) == Freshest(Ranked(q), fallback)
  {
    var peers := Line(p);
    InLine(p);
    InLine(q);
    LineMeaning(p);
    LineMeaning(q);
    LeadersAreHeard(peers);
    if exists b :: b in peers && Stamps(b) {
      var c := AsOfIsChosen(p, fallback);
      var d := AsOfIsChosen(q, fallback);
      hide Ranked, Line, LatestOf, IsFirst, Freshest, Foremost, Tied;
      FirstIsForemost(Ranked(p), LatestOf(peers), c);
      FirstIsForemost(Ranked(q), LatestOf(peers), d);
      NotTied(LatestOf(peers), c, d);
    } else {
      hide Ranked, Line, LatestOf, Freshest;
      FreshestMeaning(Ranked(p), fallback);
      FreshestMeaning(Ranked(q), fallback);
    }
  }

  /** A merged row, part by part. */
  lemma {:induction false} RowParts(claims: seq<Claim>)
    requires Peered(claims)
    ensures Resolve(claims).Merged? && Ranked(claims) != []
    ensures var e, s := Resolve(claims).entity, Ranked(claims);
      var v, t := ResolveState(s), PutClaims(s, |s|);
      && e.kind == s[0].entity.kind && e.id == s[0].entity.id
      && e.state == Verdict(v.state, e.conflicts != {})
      && e.fields == t.sink && e.provenance == Freshest(s, v.winner)
      && e.fieldSources == SourcesOf(t, v.winner, e.provenance)
      && e.superseded == AsideLosers(claims, DeclaredFacets(claims)) + v.losers + t.losers
  {
    PeersNeverEmpty(claims);
    hide PutClaims, ResolveState, Freshest, Ranked, DeclaredFacets, AsideLosers, SourcesOf, AllConflicts, OwnProvenance;
  }

  lemma {:induction false} SameAside(p: seq<Claim>, q: seq<Claim>)
    requires p != [] && q != [] && Line(p) == Line(q) && forall c :: c in p <==> c in q
    ensures AsideLosers(p, DeclaredFacets(p)) == AsideLosers(q, DeclaredFacets(q))
  {
    LineMeaning(p);
    LineMeaning(q);
    hide Line, IsNamesake, DeclaredFacets;
    assert (set c | c in p && IsNamesake(c, DeclaredFacets(p))) == (set c | c in q && IsNamesake(c, DeclaredFacets(q)));
  }

  lemma {:induction false} UntiedIsUncontested(claims: seq<Claim>)
    requires claims != [] && Untied(PeerSet(claims))
    ensures Uncontested(claims) && ScopesAgree(claims)
  {
    var peers := PeerSet(claims);
    forall k ensures !Contested(claims, k) {
      assert !Tied(HoldersOf(peers, k));
      hide PeerSet;
      forall c, d ensures !Disagree(peers, c, d, k) {
        if Disagree(peers, c, d, k) {
          DisagreeingAreForemost(peers, c, d, k);
        }
      }
    }
    hide PeerSet, Contested, Untied;
    UncontestedScopesAgree(claims);
  }

  lemma {:induction false} DisagreeingAreForemost(peers: set<Claim>, c: Claim, d: Claim, k: Key)
    requires Disagree(peers, c, d, k)
    ensures Foremost(HoldersOf(peers, k), c) && Foremost(HoldersOf(peers, k), d) && c != d
  {
  }

  /** Every key is credited to the same claim. */
  lemma {:induction false} SameCredit(p: seq<Claim>, q: seq<Claim>, k: Key)
    requires Peered(p) && Peered(q) && Line(p) == Line(q) && !Tied(HoldersOf(Line(p), k))
    ensures Resolve(p).Merged? && Resolve(q).Merged?
    ensures AgreeOn(Resolve(p).entity.fields, Resolve(q).entity.fields, k)
    ensures k in Resolve(p).entity.fields ==>
      && Of(k) in Resolve(p).entity.fieldSources && Of(k) in Resolve(q).entity.fieldSources
      && Resolve(p).entity.fieldSources[Of(k)] == Resolve(q).entity.fieldSources[Of(k)]
  {
    var peers := Line(p);
    FieldComesFrom(p, k);
    FieldComesFrom(q, k);
    hide Resolve, Line, Foremost, Peered, Tied;
    if k in Resolve(p).entity.fields {
      var c :| Foremost(HoldersOf(peers, k), c) && Credited(Resolve(p).entity, k, c);
      var d :| Foremost(HoldersOf(peers, k), d) && Credited(Resolve(q).entity, k, d);
      NotTied(HoldersOf(peers, k), c, d);
    }
  }

  predicate SameSource(t: FieldTable, u: FieldTable, k: Key) {
    k in t.sources && k in u.sources ==> t.sources[k] == u.sources[k]
  }

  lemma {:induction false} SameSources(t: FieldTable, u: FieldTable)
    requires t.sink.Keys == t.sources.Keys && u.sink.Keys == u.sources.Keys && t.sink == u.sink
    requires forall k :: SameSource(t, u, k)
    ensures t.sources == u.sources
  {
    forall k | k in t.sources ensures t.sources[k] == u.sources[k] {
      assert SameSource(t, u, k);
    }
  }

  lemma {:induction false} TablesAgree(p: seq<Claim>, q: seq<Claim>)
    requires Peered(p) && Peered(q) && Line(p) == Line(q) && forall k :: !Tied(HoldersOf(Line(p), k))
    ensures var t, u := PutClaims(Ranked(p), |Ranked(p)|), PutClaims(Ranked(q), |Ranked(q)|);
      t.sink == u.sink && t.sources == u.sources && t.losers == u.losers
  {
    var t, u := PutClaims(Ranked(p), |Ranked(p)|), PutClaims(Ranked(q), |Ranked(q)|);
    hide Peered, Line, Tied, HoldersOf, Ranked, PutClaims, Resolve;
    forall k ensures AgreeOn(t.sink, u.sink, k) && SameSource(t, u, k) {
      assert !Tied(HoldersOf(Line(p), k));
      TableShows(p, k);
      TableShows(q, k);
      SameCredit(p, q, k);
    }
    hide AgreeOn, SameSource;
    AgreeEverywhere(t.sink, u.sink);
    SameSources(t, u);
    SameLosers(p, q);
  }

  lemma {:induction false} SameLosers(p: seq<Claim>, q: seq<Claim>)
    requires Peered(p) && Peered(q) && Line(p) == Line(q)
    requires PutClaims(Ranked(p), |Ranked(p)|).sink == PutClaims(Ranked(q), |Ranked(q)|).sink
    ensures PutClaims(Ranked(p), |Ranked(p)|).losers == PutClaims(Ranked(q), |Ranked(q)|).losers
  {
    RankedIsSpread(p);
    RankedIsSpread(q);
    InLine(p);
    InLine(q);
    hide Peered, Line, Ranked, PutClaims, Spread, LosesField;
    forall l ensures l in PutClaims(Ranked(p), |Ranked(p)|).losers <==> l in PutClaims(Ranked(q), |Ranked(q)|).losers {
      FieldLosersMeaning(Ranked(p), Line(p), l);
      FieldLosersMeaning(Ranked(q), Line(p), l);
    }
  }

  lemma {:induction false} SameStateLosers(p: seq<Claim>, q: seq<Claim>)
    requires Peered(p) && Peered(q) && Line(p) == Line(q) && !Tied(LeadersOf(Line(p)))
    ensures Ranked(p) != [] && Ranked(q) != []
    ensures ResolveState(Ranked(p)).losers == ResolveState(Ranked(q)).losers
  {
    SameWinner(p, q);
    InLine(p);
    InLine(q);
    hide Peered, Line, Ranked, ResolveState, LosesState, Tied, LeadersOf;
    forall l ensures l in ResolveState(Ranked(p)).losers <==> l in ResolveState(Ranked(q)).losers {
      StateLosersMeaning(Ranked(p), Line(p), l);
      StateLosersMeaning(Ranked(q), Line(p), l);
    }
  }

  /** Untied, the whole row is the same in every order: values, credit, state, as-of, losers,
      conflicts. */
  lemma {:induction false} UntiedRowsAgree(p: seq<Claim>, q: seq<Claim>)
    requires multiset(p) == multiset(q) && Peered(p) && OneId(p) && Untied(PeerSet(p))
    ensures SameRow(p, q)
  {
    Permuted(p, q);
    PermutedClaims(p, q);
    UntiedIsUncontested(p);
    LineIsPeerSet(p);
    LineIsPeerSet(q);
    ConflictsAndAsOfAreOrderFree(p, q);
    RowParts(p);
    RowParts(q);
    hide Line, PeerSet, Resolve, Ranked, ResolveState, PutClaims, Freshest, ScopesAgree, Uncontested, AsideLosers;
    SameAside(p, q);
    SameStateLosers(p, q);
    SameWinner(p, q);
    TablesAgree(p, q);
    SameFreshest(p, q, ResolveState(Ranked(p)).winner);
    OneName(p);
    OneName(q);
    SameHeads(p, q);
  }

  lemma {:induction false} OneName(claims: seq<Claim>)
    requires claims != []
    ensures Ranked(claims) != [] && Ranked(claims)[0] in claims
  {
    PeersNeverEmpty(claims);
    hide Ranked;
    assert Ranked(claims)[0] in Ranked(claims);
  }

  lemma {:induction false} SameHeads(p: seq<Claim>, q: seq<Claim>)
    requires Ranked(p) != [] && Ranked(q) != [] && Ranked(p)[0] in p && Ranked(q)[0] in p && Peered(p) && OneId(p)
    ensures Ranked(p)[0].entity.kind == Ranked(q)[0].entity.kind && Ranked(p)[0].entity.id == Ranked(q)[0].entity.id
  {
    hide Ranked, OwnProvenance;
  }

  // ------------------------------------------------------------------ a tie shows the order

  lemma {:induction false} LeadingRow(claims: seq<Claim>, i: nat)
    requires Peered(claims) && ScopesAgree(claims) && RowIgnoresOrder(claims) && i < |claims|
    ensures var q := Leading(claims, i);
      Peered(q) && Line(q) == PeerSet(claims) && Resolve(q) == Resolve(claims) && Resolve(q).Merged?
  {
    var q := Leading(claims, i);
    LeadingLine(claims, i);
    LeadingPermutes(claims, i);
    PermutedClaims(claims, q);
    hide Resolve, Leading, Line, PeerSet, ScopesAgree, Peered;
    assert SameRow(claims, q);
    RowParts(claims);
  }

  lemma {:induction false} LeadingWinner(claims: seq<Claim>, i: nat)
    requires Peered(claims) && ScopesAgree(claims) && RowIgnoresOrder(claims) && i < |claims|
    requires Foremost(LeadersOf(PeerSet(claims)), claims[i])
    ensures Resolve(claims).Merged? && StateField in Resolve(claims).entity.fieldSources
    ensures Resolve(claims).entity.fieldSources[StateField] == claims[i].entity.provenance
  {
    hide Resolve, Peered, ScopesAgree, RowIgnoresOrder, ResolveState;
    var q, peers := Leading(claims, i), PeerSet(claims);
    LeadingRow(claims, i);
    LeadersAreHeard(peers);
    hide Leading, Line, PeerSet, LeadersOf, Ranked;
    RowParts(q);
    StateIsChosen(q);
    var c :| IsFirst(Ranked(q), LeadersOf(peers), c) && ResolveState(Ranked(q)).winner == c.entity.provenance;
    LeadingIsChosen(claims, i, LeadersOf(peers), c);
  }

  lemma {:induction false} LeadingStamp(claims: seq<Claim>, i: nat)
    requires Peered(claims) && ScopesAgree(claims) && RowIgnoresOrder(claims) && i < |claims|
    requires Foremost(LatestOf(PeerSet(claims)), claims[i])
    ensures Resolve(claims).Merged? && Resolve(claims).entity.provenance == claims[i].entity.provenance
  {
    var q, peers := Leading(claims, i), PeerSet(claims);
    LeadingRow(claims, i);
    RowParts(q);
    assert claims[i] in peers && Stamps(claims[i]);
    hide Resolve, Leading, PeerSet, ScopesAgree, Peered, RowIgnoresOrder, Ranked, LatestOf, Line;
    assert q != [] by {
      hide Leading;
      NotEmpty(q);
    }
    var c := AsOfIsChosen(q, ResolveState(Ranked(q)).winner);
    LeadingIsChosen(claims, i, LatestOf(peers), c);
  }

  lemma {:induction false} NotEmpty(claims: seq<Claim>)
    requires Peered(claims)
    ensures claims != []
  {
  }

  lemma {:induction false} LeadingCredit(claims: seq<Claim>, i: nat, k: Key)
    requires Peered(claims) && ScopesAgree(claims) && RowIgnoresOrder(claims) && i < |claims|
    requires Foremost(HoldersOf(PeerSet(claims), k), claims[i])
    ensures Resolve(claims).Merged? && Of(k) in Resolve(claims).entity.fieldSources
    ensures Resolve(claims).entity.fieldSources[Of(k)] == claims[i].entity.provenance
  {
    var q, peers := Leading(claims, i), PeerSet(claims);
    LeadingRow(claims, i);
    assert claims[i] in peers;
    hide Resolve, Leading, Line, PeerSet, ScopesAgree, Peered, RowIgnoresOrder, Foremost, HoldersOf;
    LeadingHolds(claims, i, k);
  }

  lemma {:induction false} OneProvenance(claims: seq<Claim>, c: Claim, d: Claim)
    requires Peered(claims) && c in claims && d in claims && c.entity.provenance == d.entity.provenance
    ensures c == d
  {
  }

  lemma {:induction false} PlaceOf(claims: seq<Claim>, candidates: set<Claim>, c: Claim) returns (i: nat)
    requires candidates <= PeerSet(claims) && Foremost(candidates, c)
    ensures i < |claims| && claims[i] == c
  {
    assert c in claims;
    i :| i < |claims| && claims[i] == c;
  }

  lemma {:induction false} OrderFreeIsUntied(claims: seq<Claim>)
    requires Peered(claims) && ScopesAgree(claims) && RowIgnoresOrder(claims)
    ensures Untied(PeerSet(claims))
  {
    var peers := PeerSet(claims);
    LeadersAreHeard(peers);
    hide Peered, ScopesAgree, RowIgnoresOrder, Resolve, PeerSet, LeadersOf, LatestOf, Foremost;
    forall k, c, d | Foremost(HoldersOf(peers, k), c) && Foremost(HoldersOf(peers, k), d) ensures c == d {
      var i := PlaceOf(claims, HoldersOf(peers, k), c);
      var j := PlaceOf(claims, HoldersOf(peers, k), d);
      LeadingCredit(claims, i, k);
      LeadingCredit(claims, j, k);
      OneProvenance(claims, c, d);
    }
    forall c, d | Foremost(LeadersOf(peers), c) && Foremost(LeadersOf(peers), d) ensures c == d {
      var i := PlaceOf(claims, LeadersOf(peers), c);
      var j := PlaceOf(claims, LeadersOf(peers), d);
      LeadingWinner(claims, i);
      LeadingWinner(claims, j);
      OneProvenance(claims, c, d);
    }
    forall c, d | Foremost(LatestOf(peers), c) && Foremost(LatestOf(peers), d) ensures c == d {
      var i := PlaceOf(claims, LatestOf(peers), c);
      var j := PlaceOf(claims, LatestOf(peers), d);
      LeadingStamp(claims, i);
      LeadingStamp(claims, j);
      OneProvenance(claims, c, d);
    }
  }

  /** Arrival order is invisible in the whole merged row, credit included, exactly when nothing in
      it was chosen among equals. */
  lemma {:induction false} RowIgnoresOrderIff(claims: seq<Claim>)
    requires Peered(claims) && OneId(claims)
    ensures RowIgnoresOrder(claims) <==> Untied(PeerSet(claims))
  {
    hide Peered, Resolve, Untied, PeerSet, OneId;
    NotEmpty(claims);
    if Untied(PeerSet(claims)) {
      forall q | multiset(q) == multiset(claims) ensures SameRow(claims, q) {
        UntiedRowsAgree(claims, q);
      }
    } else if RowIgnoresOrder(claims) {
      forall q | multiset(q) == multiset(claims) ensures SameFields(claims, q) {
        RowHasFields(claims, q);
      }
      FieldsIgnoreOrderIff(claims);
      UncontestedScopesAgree(claims);
      OrderFreeIsUntied(claims);
    }
  }

  lemma {:induction false} RowHasFields(p: seq<Claim>, q: seq<Claim>)
    requires Peered(p) && RowIgnoresOrder(p) && multiset(q) == multiset(p)
    ensures SameFields(p, q)
  {
    RowParts(p);
    hide Resolve, Peered;
    assert SameRow(p, q);
  }
}
