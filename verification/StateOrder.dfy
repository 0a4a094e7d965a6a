/** Exactly when arrival order can be seen in the merged state and in the as-of, of whatever kind and
    whatever the registries say (`console/index/merge.py:115-217`, `266-318`). */
module StateOrder {
  import opened Wrappers
  import opened Model
  import opened Sorting
  import opened Merge
  import opened MergeOrder
  import opened RowOrder
  import Text

  // -------------------------------------------------------------------- who may win the state

  ghost function Registries(claims: seq<Claim>): set<Claim> { set c | c in claims && IsRegistry(c) }

  /** The registries among some claims, as they arrive. */
  function Speakers(q: seq<Claim>): seq<Claim> {
    if q == [] then [] else
    Speakers(q[..|q| - 1]) + (if IsRegistry(q[|q| - 1]) then [q[|q| - 1]] else [])
  }

  /** An order in which the registries among `claims` may arrive. */
  ghost predicate SpeakingOrder(claims: seq<Claim>, rs: seq<Claim>) { multiset(rs) == multiset(Speakers(claims)) }

  /** By the word of these registries, in this order, every leader is taken for a namesake. */
  ghost predicate Silences(rs: seq<Claim>, peers: set<Claim>) {
    forall c :: c in LeadersOf(peers) ==> IsNamesake(c, DeclaredFacets(rs))
  }

  /** `c` is the first registry of an order in which every leader is. */
  ghost predicate StepsIn(claims: seq<Claim>, c: Claim) {
    exists rs :: SpeakingOrder(claims, rs) && SpeaksFirst(rs, claims, c)
  }

  ghost predicate SpeaksFirst(rs: seq<Claim>, claims: seq<Claim>, c: Claim) {
    rs != [] && rs[0] == c && Silences(rs, PeerSet(claims))
  }

  ghost predicate MayWin(claims: seq<Claim>, c: Claim) {
    Foremost(LeadersOf(PeerSet(claims)), c) || StepsIn(claims, c)
  }

  /** The state as it is rendered when `c` wins it. */
  ghost function RenderedFrom(claims: seq<Claim>, c: Claim): StateValue {
    Verdict(Brought(PeerSet(claims), c), Conflicts(PeerSet(claims)) != {})
  }

  ghost predicate OneRendering(claims: seq<Claim>) {
    forall c, d :: MayWin(claims, c) && MayWin(claims, d) ==> RenderedFrom(claims, c) == RenderedFrom(claims, d)
  }

  // -------------------------------------------------------- only the registries' order matters

  function Others(q: seq<Claim>): seq<Claim> {
    if q == [] then [] else
    Others(q[..|q| - 1]) + (if IsRegistry(q[|q| - 1]) then [] else [q[|q| - 1]])
  }

  lemma {:induction false} SpeakersMembers(q: seq<Claim>)
    ensures (forall c :: c in Speakers(q) ==> IsRegistry(c)) && forall c :: c in Others(q) ==> !IsRegistry(c)
  {
    hide IsRegistry;
    if q != [] {
      SpeakersMembers(q[..|q| - 1]);
    }
  }

  lemma {:induction false} SpeakersSplit(q: seq<Claim>)
    ensures multiset(Speakers(q)) + multiset(Others(q)) == multiset(q)
  {
    hide IsRegistry;
    if q != [] {
      var n := |q| - 1;
      var s, o := Speakers(q[..n]), Others(q[..n]);
      SpeakersSplit(q[..n]);
      assert multiset(q) == multiset(q[..n]) + multiset{q[n]} by {
        assert q == q[..n] + [q[n]];
      }
      if IsRegistry(q[n]) {
        assert Speakers(q) == s + [q[n]] && Others(q) == o;
      } else {
        assert Speakers(q) == s && Others(q) == o + [q[n]];
      }
    }
  }

  lemma {:induction false} SpeakersDecide(q: seq<Claim>)
    ensures DeclaredFacets(Speakers(q)) == DeclaredFacets(q)
  {
    if q != [] {
      var n := |q| - 1;
      SpeakersDecide(q[..n]);
      if IsRegistry(q[n]) {
        assert Speakers(q)[..|Speakers(q)| - 1] == Speakers(q[..n]);
      } else {
        assert Speakers(q) == Speakers(q[..n]);
      }
    }
  }

  lemma {:induction false} OthersDeclareNothing(rs: seq<Claim>, os: seq<Claim>)
    requires forall c :: c in os ==> !IsRegistry(c)
    ensures DeclaredFacets(rs + os) == DeclaredFacets(rs)
    decreases |os|
  {
    if os == [] {
      assert rs + os == rs;
    } else {
      var n := |os| - 1;
      assert (rs + os)[..|rs + os| - 1] == rs + os[..n] && (rs + os)[|rs + os| - 1] == os[n];
      assert os[n] in os && forall c :: c in os[..n] ==> c in os;
      OthersDeclareNothing(rs, os[..n]);
    }
  }

  lemma {:induction false} SpeakersPermute(p: seq<Claim>, q: seq<Claim>)
    requires multiset(p) == multiset(q)
    ensures multiset(Speakers(p)) == multiset(Speakers(q))
  {
    SpeakersSplit(p);
    SpeakersSplit(q);
    SpeakersMembers(p);
    SpeakersMembers(q);
    hide IsRegistry;
    forall c ensures multiset(Speakers(p))[c] == multiset(Speakers(q))[c] {
      assert multiset(p)[c] == multiset(Speakers(p))[c] + multiset(Others(p))[c];
      assert multiset(q)[c] == multiset(Speakers(q))[c] + multiset(Others(q))[c];
      if IsRegistry(c) {
        assert c !in Others(p) && c !in Others(q);
        assert c !in multiset(Others(p)) && c !in multiset(Others(q));
      } else {
        assert c !in Speakers(p) && c !in Speakers(q);
        assert c !in multiset(Speakers(p)) && c !in multiset(Speakers(q));
      }
    }
  }

  lemma {:induction false} FirstSpeaker(q: seq<Claim>, some: set<Claim>, c: Claim)
    requires IsFirst(q, some, c) && forall x :: x in q ==> (x in some <==> IsRegistry(x))
    ensures Speakers(q) != [] && Speakers(q)[0] == c
  {
    var x: nat :| FirstAt(q, some, c, x);
    hide IsRegistry;
    var n := |q| - 1;
    if x < n {
      assert FirstAt(q[..n], some, c, x);
      assert forall y :: y in q[..n] ==> y in q;
      FirstSpeaker(q[..n], some, c);
    } else {
      forall y | y in q[..n] ensures !IsRegistry(y) {
        var j :| 0 <= j < n && q[..n][j] == y;
        assert q[j] == y;
      }
      Silent(q[..n]);
      assert q[x] in q;
    }
  }

  lemma {:induction false} Silent(q: seq<Claim>)
    requires forall c :: c in q ==> !IsRegistry(c)
    ensures Speakers(q) == []
  {
    if q != [] {
      assert q == q[..|q| - 1] + [q[|q| - 1]];
      Silent(q[..|q| - 1]);
    }
  }

  /** Every order of the claims is, to the facets declared, an order of their registries. */
  lemma {:induction false} SpeakingOrderOf(claims: seq<Claim>, q: seq<Claim>)
    requires multiset(q) == multiset(claims)
    ensures SpeakingOrder(claims, Speakers(q)) && DeclaredFacets(Speakers(q)) == DeclaredFacets(q)
    ensures forall c :: IsFirst(q, Registries(claims), c) ==> Speakers(q) != [] && Speakers(q)[0] == c
  {
    SpeakersPermute(q, claims);
    SpeakersDecide(q);
    Permuted(claims, q);
    hide IsRegistry, DeclaredFacets;
    forall c | IsFirst(q, Registries(claims), c) ensures Speakers(q) != [] && Speakers(q)[0] == c {
      FirstSpeaker(q, Registries(claims), c);
    }
  }

  /** And every order of the registries comes from one of the claims. */
  lemma {:induction false} OrderSpoken(claims: seq<Claim>, rs: seq<Claim>) returns (q: seq<Claim>)
    requires SpeakingOrder(claims, rs)
    ensures multiset(q) == multiset(claims) && DeclaredFacets(q) == DeclaredFacets(rs)
    ensures rs != [] ==> IsFirst(q, Registries(claims), rs[0])
  {
    q := rs + Others(claims);
    SpeakersSplit(claims);
    SpeakersMembers(claims);
    OthersDeclareNothing(rs, Others(claims));
    hide IsRegistry, DeclaredFacets;
    assert multiset(q) == multiset(rs) + multiset(Others(claims));
    if rs != [] {
      Permuted(rs, Speakers(claims));
      assert rs[0] in multiset(claims);
      assert rs[0] in Registries(claims);
      assert FirstAt(q, Registries(claims), rs[0], 0);
    }
  }

  // ------------------------------------------------------------------- what an order listens to

  /** Whom an order listens to is no namesake by every registry's word, and only discoveries are
      ever left out. */
  lemma {:induction false} LineWithin(claims: seq<Claim>, q: seq<Claim>)
    requires multiset(q) == multiset(claims) && claims != []
    ensures q != [] && Line(q) <= PeerSet(claims)
    ensures forall c :: c in PeerSet(claims) && c.cls != Discovery ==> c in Line(q)
  {
    Permuted(claims, q);
    PermutedClaims(claims, q);
    LineMeaning(q);
    forall c | c in Line(q) ensures c in PeerSet(q) {
      HeardIsNoNamesake(q, c);
    }
    hide Line, Ranked, Namesake;
    assert PeerSet(q) == PeerSet(claims);
  }

  lemma {:induction false} HeardIsNoNamesake(q: seq<Claim>, c: Claim)
    requires !IsNamesake(c, DeclaredFacets(q))
    ensures !Namesake(q, c)
  {
    var declared := DeclaredFacets(q);
    if Namesake(q, c) {
      forall i | 0 <= i < |c.scope|
        ensures c.scope[i].0 in declared ==> declared[c.scope[i].0] != c.scope[i].1
        ensures (exists v :: Declares(q, c.scope[i].0, v)) ==> c.scope[i].0 in declared
      {
        DeclaredFacetsMeaning(q, c.scope[i].0);
      }
      hide DeclaredFacets, Declares;
    }
  }

  lemma {:induction false} SameFlag(claims: seq<Claim>, q: seq<Claim>)
    requires multiset(q) == multiset(claims) && claims != []
    ensures q != []
    ensures Conflicts(Line(q)) != {} <==> Conflicts(PeerSet(claims)) != {}
  {
    Permuted(claims, q);
    PermutedClaims(claims, q);
    if ScopesAgree(claims) {
      LineIsPeerSet(q);
    } else {
      FacetDisagreementConflicts(q);
      PeersConflict(claims);
    }
  }

  lemma {:induction false} PeersConflict(claims: seq<Claim>)
    requires claims != [] && !ScopesAgree(claims)
    ensures Conflicts(PeerSet(claims)) != {}
  {
    if Uncontested(claims) {
      UncontestedScopesAgree(claims);
    } else {
      var k :| Contested(claims, k);
      hide PeerSet, Conflicts, Disagree;
      ConflictAt(PeerSet(claims), k);
      assert Of(k) in Conflicts(PeerSet(claims));
    }
  }

  // ----------------------------------------------------------------- the first of some claims

  lemma {:induction false} FirstOf(x: Claim, s: seq<Claim>, some: set<Claim>, c: Claim)
    ensures IsFirst([x] + s, some, c) <==> if x in some then c == x else IsFirst(s, some, c)
  {
    var t := [x] + s;
    if x in some {
      assert FirstAt(t, some, x, 0);
      if IsFirst(t, some, c) {
        OneFirst(t, some, c, x);
      }
    } else {
      if n: nat :| FirstAt(t, some, c, n) {
        assert s[n - 1] == t[n];
        forall j | 0 <= j < n - 1 ensures s[j] !in some {
          assert s[j] == t[j + 1];
        }
        assert FirstAt(s, some, c, n - 1);
      }
      if n: nat :| FirstAt(s, some, c, n) {
        assert FirstAt(t, some, c, n + 1);
      }
    }
  }

  lemma {:induction false} FirstPeer(s: seq<Claim>, declared: map<string, Value>, some: set<Claim>, c: Claim)
    requires forall x :: x in some ==> !IsNamesake(x, declared)
    ensures IsFirst(Peers(s, declared), some, c) <==> IsFirst(s, some, c)
  {
    hide IsNamesake, IsFirst;
    if s != [] {
      FirstPeer(s[1..], declared, some, c);
      assert s == [s[0]] + s[1..];
      FirstOf(s[0], s[1..], some, c);
      FirstOf(s[0], Peers(s[1..], declared), some, c);
      assert Peers(s, declared) == if IsNamesake(s[0], declared) then Peers(s[1..], declared)
                                   else [s[0]] + Peers(s[1..], declared);
    }
  }

  lemma {:induction false} FirstKept(s: seq<Claim>, k: int, some: set<Claim>, c: Claim)
    requires forall x :: x in some ==> ClassRank(x) == k
    ensures IsFirst(Keep(s, ClassRank, k), some, c) <==> IsFirst(s, some, c)
  {
    hide IsFirst;
    if s != [] {
      FirstKept(s[1..], k, some, c);
      assert s == [s[0]] + s[1..];
      FirstOf(s[0], s[1..], some, c);
      FirstOf(s[0], Keep(s[1..], ClassRank, k), some, c);
      assert Keep(s, ClassRank, k) == if ClassRank(s[0]) == k then [s[0]] + Keep(s[1..], ClassRank, k)
                                      else Keep(s[1..], ClassRank, k);
    }
  }

  /** The line keeps the order in which claims of one class arrive. */
  lemma {:induction false} FirstInLine(q: seq<Claim>, some: set<Claim>, c: Claim)
    requires forall x :: x in some ==> x.cls == Declaration
    ensures IsFirst(Ranked(q), some, c) <==> IsFirst(q, some, c)
  {
    var declared := DeclaredFacets(q);
    FirstPeer(q, declared, some, c);
    FirstKept(Peers(q, declared), 1, some, c);
    FirstKept(Ranked(q), 1, some, c);
    SortIsStable(Peers(q, declared), ClassRank, 1);
    hide IsFirst, Peers, DeclaredFacets;
  }

  // ------------------------------------------------------------------------- who wins an order

  lemma {:induction false} WinnerShown(q: seq<Claim>) returns (c: Claim)
    requires Peered(q)
    ensures IsFirst(Ranked(q), LeadersOf(Line(q)), c) && Foremost(LeadersOf(Line(q)), c)
    ensures Resolve(q).Merged?
    ensures Resolve(q).entity.state == Verdict(Brought(Line(q), c), Conflicts(Line(q)) != {})
  {
    MergeMeaning(q);
    RowParts(q);
    LineMeaning(q);
    LeadersAreHeard(Line(q));
    hide Resolve, Ranked, Conflicts, IsFirst, LeadersOf, Peered, Foremost, Brought;
    c := WinnerIsFirst(Ranked(q), Line(q));
    FirstIsForemost(Ranked(q), LeadersOf(Line(q)), c);
  }

  /** Somebody admissible is heard in every order when registries disagree. */
  lemma {:induction false} RegistryExists(claims: seq<Claim>) returns (r: Claim)
    requires !ScopesAgree(claims) && claims != []
    ensures r in Registries(claims) && r in claims && r in PeerSet(claims) && Admissible(r)
  {
    var c, d, name :| c in claims && d in claims && IsRegistry(c) && IsRegistry(d) && Scoped(claims, name)
      && Facet(name) in c.entity.fields && Facet(name) in d.entity.fields
      && c.entity.fields[Facet(name)] != d.entity.fields[Facet(name)];
    r := c;
    RegistryIsHeard(claims, r);
  }

  lemma {:induction false} RegistriesHeard(claims: seq<Claim>, q: seq<Claim>)
    requires multiset(q) == multiset(claims) && claims != []
    ensures Registries(claims) <= Line(q) && Registries(claims) <= PeerSet(claims)
  {
    LineWithin(claims, q);
    forall r | r in Registries(claims) ensures r in PeerSet(claims) {
      RegistryIsHeard(claims, r);
    }
    hide Line, PeerSet;
  }

  /** Silenced leaders are discoveries, and the registries lead in their place. */
  lemma {:induction false} SilencedLeaders(claims: seq<Claim>, q: seq<Claim>, r: Claim)
    requires multiset(q) == multiset(claims) && claims != [] && r in Registries(claims)
    requires Silences(q, PeerSet(claims))
    ensures LeadersOf(Line(q)) == Registries(claims)
  {
    var peers := PeerSet(claims);
    LineWithin(claims, q);
    LineMeaning(q);
    RegistriesHeard(claims, q);
    assert r in peers && Admissible(r);
    var b := SomeLeader(peers, r);
    assert b.cls == Discovery;
    assert StateRank(b) == 2;
    forall c | c in Line(q) && Admissible(c) ensures StateRank(c) >= 3 {
      LeadsToo(peers, b, c);
    }
    assert forall x :: x in Registries(claims) ==> StateRank(x) == 3 && Admissible(x) && x in Line(q);
    LeadersStandAt(Line(q), r);
    hide Line, PeerSet, IsNamesake, LeadersOf;
    Permuted(claims, q);
    assert forall c :: c in Line(q) ==> c in claims;
  }

  lemma {:induction false} LeadsToo(peers: set<Claim>, b: Claim, c: Claim)
    requires Leads(peers, b) && c in peers && Admissible(c)
    ensures c in LeadersOf(peers) <==> StateRank(c) <= StateRank(b)
  {
  }

  lemma {:induction false} SomeLeader(peers: set<Claim>, r: Claim) returns (b: Claim)
    requires r in peers && Admissible(r)
    ensures Leads(peers, b) && b in LeadersOf(peers)
    decreases StateRank(r)
  {
    if c :| c in peers && Admissible(c) && StateRank(c) < StateRank(r) {
      b := SomeLeader(peers, c);
    } else {
      b := r;
    }
  }

  lemma {:induction false} LeadersStandAt(peers: set<Claim>, r: Claim)
    requires r in peers && Admissible(r) && forall c :: c in peers && Admissible(c) ==> StateRank(c) >= StateRank(r)
    ensures forall c :: c in LeadersOf(peers) <==> c in peers && Admissible(c) && StateRank(c) == StateRank(r)
  {
    assert Leads(peers, r);
    LeadersStand(peers, r);
  }

  // ------------------------------------------------------------------------ winning is possible

  lemma {:induction false} FacetStays(q: seq<Claim>, n: nat, name: string)
    requires n <= |q| && name in DeclaredFacets(q[..n])
    ensures name in DeclaredFacets(q) && DeclaredFacets(q)[name] == DeclaredFacets(q[..n])[name]
    decreases |q|
  {
    if n == |q| {
      assert q[..n] == q;
    } else {
      assert q[..|q| - 1][..n] == q[..n];
      FacetStays(q[..|q| - 1], n, name);
    }
  }

  /** The registry behind one other claim at the front is heard first. */
  lemma {:induction false} SecondDeclares(q: seq<Claim>, name: string)
    requires |q| >= 2 && !IsRegistry(q[0]) && IsRegistry(q[1]) && Facet(name) in q[1].entity.fields
    ensures name in DeclaredFacets(q) && DeclaredFacets(q)[name] == q[1].entity.fields[Facet(name)]
  {
    assert q[..2][..1] == q[..1] && q[..1][..0] == [];
    assert DeclaredFacets([]) == map[] && DeclaredFacets(q[..1]) == map[];
    assert DeclaredFacets(q[..2]) == FacetsOf(q[1].entity.fields);
    FacetStays(q, 2, name);
  }

  /** Any peer can be brought to the front of an order that hears it. */
  lemma {:induction false} HeardInFront(claims: seq<Claim>, c: Claim) returns (p: seq<Claim>, i: nat)
    requires c in PeerSet(claims)
    ensures multiset(p) == multiset(claims) && i < |p| && p[i] == c
    ensures multiset(Leading(p, i)) == multiset(claims) && c in Line(Leading(p, i))
  {
    if c.cls == Discovery && exists j: nat, d :: Matches(claims, c, j, d) {
      var j: nat, d :| Matches(claims, c, j, d);
      p, i := PlacedInFront(claims, c, j, d);
    } else {
      p := claims;
      i :| 0 <= i < |claims| && claims[i] == c;
      LeadingPermutes(claims, i);
      Permuted(claims, Leading(claims, i));
      LineMeaning(Leading(claims, i));
      hide DeclaredFacets, PeerSet, Line, Ranked;
      if c.cls == Discovery {
        Unplaced(claims, Leading(claims, i), c);
      }
    }
  }

  /** Any two claims can be brought to the front. */
  lemma {:induction false} TwoInFront(claims: seq<Claim>, c: Claim, d: Claim) returns (p: seq<Claim>, i: nat)
    requires c in claims && d in claims && c != d
    ensures multiset(p) == multiset(claims) && i < |p| && p[i] == c
    ensures var q := Leading(p, i); multiset(q) == multiset(claims) && |q| >= 2 && q[0] == c && q[1] == d
  {
    var x: nat :| x < |claims| && claims[x] == d;
    p := Leading(claims, x);
    LeadingPermutes(claims, x);
    Permuted(claims, p);
    i :| 0 <= i < |p| && p[i] == c;
    LeadingPermutes(p, i);
  }

  lemma {:induction false} PlacedInFront(claims: seq<Claim>, c: Claim, j: nat, d: Claim)
    returns (p: seq<Claim>, i: nat)
    requires c in claims && c.cls == Discovery && Matches(claims, c, j, d)
    ensures multiset(p) == multiset(claims) && i < |p| && p[i] == c
    ensures multiset(Leading(p, i)) == multiset(claims) && c in Line(Leading(p, i))
  {
    p, i := TwoInFront(claims, c, d);
    hide IsNamesake, DeclaredFacets, Matches, Line, Ranked, Leading;
    var q := Leading(p, i);
    LineMeaning(q);
    assert q[0] in q;
    PlacedSecond(q, claims, j);
  }

  lemma {:induction false} PlacedSecond(q: seq<Claim>, claims: seq<Claim>, j: nat)
    requires |q| >= 2 && q[0].cls == Discovery && Matches(claims, q[0], j, q[1])
    ensures !IsNamesake(q[0], DeclaredFacets(q))
  {
    SecondDeclares(q, q[0].scope[j].0);
  }

  /** `d` declares the value `c`'s scope is written in. */
  ghost predicate Matches(claims: seq<Claim>, c: Claim, j: nat, d: Claim) {
    j < |c.scope| && d in claims && DeclaredBy(d, c.scope[j].0, c.scope[j].1)
  }

  /** A peer no registry places at all is a namesake in no order. */
  lemma {:induction false} Unplaced(claims: seq<Claim>, q: seq<Claim>, c: Claim)
    requires c in PeerSet(claims) && multiset(q) == multiset(claims)
    requires c.cls == Discovery && !exists j: nat, d :: Matches(claims, c, j, d)
    ensures !IsNamesake(c, DeclaredFacets(q))
  {
    Permuted(claims, q);
    NothingMatches(claims, c);
    assert !Namesake(claims, c);
    hide Matches;
    forall i | 0 <= i < |c.scope| ensures c.scope[i].0 !in DeclaredFacets(q) {
      DeclaredFacetsMeaning(q, c.scope[i].0);
      forall v ensures !Declares(q, c.scope[i].0, v) {
        assert !Declares(claims, c.scope[i].0, v);
      }
    }
  }

  lemma {:induction false} NothingMatches(claims: seq<Claim>, c: Claim)
    requires !exists j: nat, d :: Matches(claims, c, j, d)
    ensures forall i :: 0 <= i < |c.scope| ==> !Declares(claims, c.scope[i].0, c.scope[i].1)
  {
    forall i | 0 <= i < |c.scope| ensures !Declares(claims, c.scope[i].0, c.scope[i].1) {
      if d :| d in claims && DeclaredBy(d, c.scope[i].0, c.scope[i].1) {
        assert Matches(claims, c, i, d);
      }
    }
  }

  ghost predicate Wins(claims: seq<Claim>, q: seq<Claim>, c: Claim) {
    multiset(q) == multiset(claims) && IsFirst(Ranked(q), LeadersOf(Line(q)), c)
  }

  /** Whoever leads all peers leads any of them it is heard among. */
  lemma {:induction false} LeadsAmong(peers: set<Claim>, some: set<Claim>, c: Claim)
    requires some <= peers && c in some && Foremost(LeadersOf(peers), c)
    requires Admissible(c) || some == peers
    ensures Foremost(LeadersOf(some), c)
  {
    if some != peers {
      forall b | b in LeadersOf(some) ensures b in LeadersOf(peers) {
        LeadsBack(peers, some, c, b);
      }
      assert Leads(some, c);
    }
  }

  lemma {:induction false} LeadsBack(peers: set<Claim>, some: set<Claim>, c: Claim, b: Claim)
    requires some <= peers && c in some && c in LeadersOf(peers) && Admissible(c) && b in LeadersOf(some)
    ensures b in LeadersOf(peers) && Leads(peers, b)
  {
    assert Leads(peers, c) && Leads(some, c) && Leads(some, b);
  }

  /** Everyone who may win wins some order. */
  lemma {:induction false} MayWinWins(claims: seq<Claim>, c: Claim)
    requires Peered(claims) && MayWin(claims, c)
    ensures exists q :: Wins(claims, q, c)
  {
    var peers := PeerSet(claims);
    if Foremost(LeadersOf(peers), c) {
      var q := LeaderWins(claims, c);
    } else {
      var rs :| SpeakingOrder(claims, rs) && SpeaksFirst(rs, claims, c);
      var q := OrderSpoken(claims, rs);
      hide PeerSet, LeadersOf, Line, Ranked, DeclaredFacets, IsNamesake, SpeakingOrder;
      assert c in Registries(claims);
      SilencedLeaders(claims, q, c);
      FirstInLine(q, Registries(claims), c);
      assert Wins(claims, q, c);
    }
  }

  lemma {:induction false} LeaderWins(claims: seq<Claim>, c: Claim) returns (q: seq<Claim>)
    requires Peered(claims) && Foremost(LeadersOf(PeerSet(claims)), c)
    ensures Wins(claims, q, c)
  {
    var peers := PeerSet(claims);
    LeadersAreHeard(peers);
    var p, i := HeardInFront(claims, c);
    q := Leading(p, i);
    PermutedClaims(claims, q);
    LineWithin(claims, q);
    if ScopesAgree(claims) {
      LineIsPeerSet(q);
    } else {
      var r := RegistryExists(claims);
      assert Admissible(c);
    }
    hide PeerSet, Line, Ranked, LeadersOf, Foremost, Leading, Peered, ScopesAgree, Conflicts, Brought;
    LeadsAmong(peers, Line(q), c);
    var d := WinnerShown(q);
    LeadingIsChosen(p, i, LeadersOf(Line(q)), d);
  }

  // ------------------------------------------------------------------------ the exact condition

  /** Whoever wins an order is one of those. */
  lemma {:induction false} WinnerMayWin(claims: seq<Claim>, q: seq<Claim>, c: Claim)
    requires Peered(claims) && Wins(claims, q, c)
    ensures MayWin(claims, c) && Brought(Line(q), c) == Brought(PeerSet(claims), c)
  {
    var peers := PeerSet(claims);
    PermutedClaims(claims, q);
    LineMeaning(q);
    LineWithin(claims, q);
    LeadersAreHeard(Line(q));
    FirstIsForemost(Ranked(q), LeadersOf(Line(q)), c);
    if ScopesAgree(claims) {
      LineIsPeerSet(q);
    } else {
      var r := RegistryExists(claims);
      RegistriesHeard(claims, q);
      hide Ranked, PeerSet, Line, Registries, ScopesAgree, Peered, IsFirst, DeclaredFacets;
      SameBrought(peers, Line(q), r, c);
      if Leads(peers, c) {
        LeadsAll(peers, Line(q), r, c);
      } else {
        OnlySilenced(claims, q, r, c);
      }
    }
  }

  lemma {:induction false} SameBrought(peers: set<Claim>, some: set<Claim>, r: Claim, c: Claim)
    requires some <= peers && r in some && Admissible(r)
    ensures Brought(some, c) == Brought(peers, c)
  {
  }

  lemma {:induction false} LeadsAll(peers: set<Claim>, some: set<Claim>, r: Claim, c: Claim)
    requires some <= peers && r in some && Admissible(r) && Leads(peers, c) && Foremost(LeadersOf(some), c)
    requires forall b :: b in peers && b.cls != Discovery ==> b in some
    ensures Foremost(LeadersOf(peers), c)
  {
    assert Leads(some, c);
    forall b | b in LeadersOf(peers) ensures ClassRank(c) <= ClassRank(b) {
      assert Leads(peers, b);
      assert b in some ==> Leads(some, b) && b in LeadersOf(some);
    }
  }

  lemma {:induction false} OnlySilenced(claims: seq<Claim>, q: seq<Claim>, r: Claim, c: Claim)
    requires Wins(claims, q, c) && claims != [] && r in Registries(claims) && Admissible(r)
    requires !Leads(PeerSet(claims), c)
    ensures StepsIn(claims, c)
  {
    var peers := PeerSet(claims);
    Permuted(claims, q);
    LineMeaning(q);
    LineWithin(claims, q);
    RegistriesHeard(claims, q);
    LeadersAreHeard(peers);
    forall b | b in LeadersOf(peers) ensures IsNamesake(b, DeclaredFacets(q)) {
      LeaderUnheard(peers, Line(q), r, c, b);
    }
    hide PeerSet, Line, LeadersOf, IsFirst, DeclaredFacets, Ranked;
    SilencedLeaders(claims, q, r);
    FirstInLine(q, Registries(claims), c);
    SpeakingOrderOf(claims, q);
    assert SpeaksFirst(Speakers(q), claims, c);
  }

  lemma {:induction false} LeaderUnheard(peers: set<Claim>, some: set<Claim>, r: Claim, c: Claim, b: Claim)
    requires some <= peers && r in some && Admissible(r) && c in LeadersOf(some) && !Leads(peers, c)
    requires b in LeadersOf(peers)
    ensures b !in some
  {
    assert Leads(some, c) && Leads(peers, b);
    assert b in some ==> StateRank(c) <= StateRank(b);
  }

  /** Arrival order is invisible in the state exactly when all who may win it would have it rendered
      the same. */
  lemma {:induction false} StateIgnoresOrderIff(claims: seq<Claim>)
    requires Peered(claims)
    ensures StateIgnoresOrder(claims) <==> OneRendering(claims)
  {
    hide Peered, Resolve, MayWin, Wins, PeerSet, Line, Conflicts, Brought, LeadersOf, Ranked, IsFirst;
    assert claims != [] by { NotEmpty(claims); }
    forall q | multiset(q) == multiset(claims)
      ensures Peered(q) && q != [] && Resolve(q).Merged?
      ensures exists c :: Wins(claims, q, c) && MayWin(claims, c) && Resolve(q).entity.state == RenderedFrom(claims, c)
    {
      var c := OneWinner(claims, q);
    }
    if OneRendering(claims) {
      forall q | multiset(q) == multiset(claims) ensures SameState(claims, q) {
        var c :| MayWin(claims, c) && Resolve(claims).entity.state == RenderedFrom(claims, c);
        var d :| MayWin(claims, d) && Resolve(q).entity.state == RenderedFrom(claims, d);
      }
    }
    if StateIgnoresOrder(claims) {
      forall c, d | MayWin(claims, c) && MayWin(claims, d)
        ensures RenderedFrom(claims, c) == RenderedFrom(claims, d)
      {
        Shows(claims, c);
        Shows(claims, d);
      }
    }
  }

  lemma {:induction false} OneWinner(claims: seq<Claim>, q: seq<Claim>) returns (c: Claim)
    requires Peered(claims) && multiset(q) == multiset(claims)
    ensures Peered(q) && q != [] && Resolve(q).Merged?
    ensures Wins(claims, q, c) && MayWin(claims, c) && Resolve(q).entity.state == RenderedFrom(claims, c)
  {
    PermutedClaims(claims, q);
    NotEmpty(claims);
    NotEmpty(q);
    SameFlag(claims, q);
    hide Peered, Resolve, MayWin, PeerSet, Line, Conflicts, Brought, LeadersOf, Ranked, IsFirst;
    c := WinnerShown(q);
    WinnerMayWin(claims, q, c);
  }

  /** Then that is what is shown. */
  lemma {:induction false} Shows(claims: seq<Claim>, c: Claim)
    requires Peered(claims) && StateIgnoresOrder(claims) && MayWin(claims, c)
    ensures Resolve(claims).Merged? && Resolve(claims).entity.state == RenderedFrom(claims, c)
  {
    hide Peered, Resolve, MayWin, PeerSet, Line, Conflicts, Brought, LeadersOf, Ranked, IsFirst;
    MayWinWins(claims, c);
    var q :| Wins(claims, q, c);
    var d := OneWinner(claims, q);
    OneFirst(Ranked(q), LeadersOf(Line(q)), c, d);
    assert SameState(claims, q);
  }

  /** Where the registries agree on the facets scopes are written in, those are the foremost leaders. */
  lemma {:induction false} NobodyStepsIn(claims: seq<Claim>, c: Claim)
    requires claims != [] && ScopesAgree(claims)
    ensures MayWin(claims, c) <==> Foremost(LeadersOf(PeerSet(claims)), c)
  {
    var peers := PeerSet(claims);
    if rs :| SpeakingOrder(claims, rs) && SpeaksFirst(rs, claims, c) {
      var q := OrderSpoken(claims, rs);
      Permuted(claims, q);
      PermutedClaims(claims, q);
      LineIsPeerSet(q);
      LineMeaning(q);
      LeadersAreHeard(peers);
      hide PeerSet, Line, IsNamesake, DeclaredFacets, Ranked, ScopesAgree, SpeakingOrder;
      assert Ranked(q)[0] in peers;
      SomebodyLeads(peers, Ranked(q)[0]);
      assert false;
    }
  }

  lemma {:induction false} SomebodyLeads(peers: set<Claim>, c: Claim)
    requires c in peers
    ensures LeadersOf(peers) != {}
  {
    if r :| r in peers && Admissible(r) {
      var b := SomeLeader(peers, r);
    } else {
      assert c in LeadersOf(peers);
    }
  }

  // ------------------------------------------------------------------------- and in the as-of

  ghost predicate SameAsOf(p: seq<Claim>, q: seq<Claim>) {
    && p != [] && q != [] && Resolve(p).Merged? && Resolve(q).Merged?
    && Resolve(p).entity.provenance.asOf == Resolve(q).entity.provenance.asOf
  }

  ghost predicate AsOfIgnoresOrder(claims: seq<Claim>) {
    forall q | multiset(q) == multiset(claims) :: SameAsOf(claims, q)
  }

  /** By the word of the registries in some order, every claim that carries the latest stamp is taken
      for a namesake. */
  ghost predicate LatestMayBeSilenced(claims: seq<Claim>) {
    exists rs :: SpeakingOrder(claims, rs) && SilencesLatest(rs, PeerSet(claims))
  }

  ghost predicate SilencesLatest(q: seq<Claim>, peers: set<Claim>) {
    forall c :: Latest(peers, c) ==> IsNamesake(c, DeclaredFacets(q))
  }

  /** An order shows the latest stamp of all peers exactly when somebody who carries it is heard. */
  lemma {:induction false} LatestShown(claims: seq<Claim>, q: seq<Claim>, c: Claim)
    requires Peered(claims) && multiset(q) == multiset(claims) && Latest(PeerSet(claims), c)
    ensures q != [] && Resolve(q).Merged?
    ensures Resolve(q).entity.provenance.asOf == c.entity.provenance.asOf <==> !SilencesLatest(q, PeerSet(claims))
  {
    hide Resolve, Peered, Line, PeerSet, Latest, IsLatest, Conflicts, IsVerdict,
         IsNamesake, DeclaredFacets, Text.AtMost;
    hide Ranked, OneKind, OwnProvenance, Mergeable, ScopesAgree, LifecyclesAgree;
    NotEmpty(claims);
    PermutedClaims(claims, q);
    NotEmpty(q);
    LineWithin(claims, q);
    MergeMeaning(q);
    LatestAmong(PeerSet(claims), Line(q), c, Resolve(q).entity.provenance.asOf);
    forall b | Latest(PeerSet(claims), b) ensures b in Line(q) <==> !IsNamesake(b, DeclaredFacets(q)) {
      HeardPeer(claims, q, b);
    }
  }

  lemma {:induction false} LatestAmong(peers: set<Claim>, some: set<Claim>, c: Claim, stamp: string)
    requires some <= peers && Latest(peers, c) && IsLatest(some, stamp)
    ensures stamp == c.entity.provenance.asOf <==> exists b :: b in some && Latest(peers, b)
  {
    hide Text.AtMost;
    if b :| b in some && Latest(peers, b) {
      LatestIsUnique(peers, b.entity.provenance.asOf, c.entity.provenance.asOf);
      LatestIsUnique(some, b.entity.provenance.asOf, stamp);
    }
    if stamp == c.entity.provenance.asOf {
      var b :| b in some && b.entity.provenance.asOf == stamp;
      assert Latest(peers, b);
    }
  }

  lemma {:induction false} HeardPeer(claims: seq<Claim>, q: seq<Claim>, b: Claim)
    requires claims != [] && multiset(q) == multiset(claims) && Latest(PeerSet(claims), b)
    ensures b in Line(q) <==> !IsNamesake(b, DeclaredFacets(q))
  {
    hide Text.AtMost, IsNamesake, DeclaredFacets, Ranked;
    assert b in PeerSet(claims);
    Permuted(claims, q);
    LineMeaning(q);
  }

  lemma {:induction false} SomebodyLatest(peers: set<Claim>) returns (c: Claim)
    requires peers != {}
    ensures Latest(peers, c)
    decreases |peers|
  {
    var one :| one in peers;
    var rest := peers - {one};
    c := one;
    assert forall b :: b in peers <==> b in rest || b == one;
    Text.AtMostTotal(one.entity.provenance.asOf, one.entity.provenance.asOf);
    if rest != {} {
      var d := SomebodyLatest(rest);
      Text.AtMostTotal(one.entity.provenance.asOf, d.entity.provenance.asOf);
      hide Text.AtMost;
      if Text.AtMost(one.entity.provenance.asOf, d.entity.provenance.asOf) {
        c := d;
      } else {
        AllBelow(rest, d, one);
      }
    }
  }

  lemma {:induction false} AllBelow(rest: set<Claim>, d: Claim, c: Claim)
    requires Latest(rest, d) && Text.AtMost(d.entity.provenance.asOf, c.entity.provenance.asOf)
    ensures forall b :: b in rest ==> Text.AtMost(b.entity.provenance.asOf, c.entity.provenance.asOf)
  {
    forall b | b in rest ensures Text.AtMost(b.entity.provenance.asOf, c.entity.provenance.asOf) {
      Text.AtMostTransitive(b.entity.provenance.asOf, d.entity.provenance.asOf, c.entity.provenance.asOf);
    }
  }

  /** Arrival order is invisible in the as-of exactly when no order takes all who carry the latest
      stamp for namesakes. */
  lemma {:induction false} AsOfIgnoresOrderIff(claims: seq<Claim>)
    requires Peered(claims)
    ensures AsOfIgnoresOrder(claims) <==> !LatestMayBeSilenced(claims)
  {
    var peers := PeerSet(claims);
    hide Resolve, Peered, PeerSet, Line, Ranked, Leading, IsNamesake, DeclaredFacets, SilencesLatest, Text.AtMost;
    hide SpeakingOrder;
    var c, q := LatestIsHeard(claims);
    forall x | multiset(x) == multiset(claims)
      ensures x != [] && Resolve(x).Merged?
      ensures Resolve(x).entity.provenance.asOf == c.entity.provenance.asOf <==> !SilencesLatest(x, peers)
    {
      LatestShown(claims, x, c);
    }
    if AsOfIgnoresOrder(claims) {
      assert SameAsOf(claims, q);
      forall rs | SpeakingOrder(claims, rs) ensures !SilencesLatest(rs, peers) {
        var x := OrderSpoken(claims, rs);
        assert SameAsOf(claims, x);
        SameSilence(x, rs, peers);
      }
    } else if !LatestMayBeSilenced(claims) {
      forall x | multiset(x) == multiset(claims) ensures SameAsOf(claims, x) {
        NotSilenced(claims, x);
        NotSilenced(claims, claims);
      }
    }
  }

  lemma {:induction false} SameSilence(p: seq<Claim>, q: seq<Claim>, peers: set<Claim>)
    requires DeclaredFacets(p) == DeclaredFacets(q)
    ensures SilencesLatest(p, peers) <==> SilencesLatest(q, peers)
  {
    hide DeclaredFacets, IsNamesake;
  }

  lemma {:induction false} NotSilenced(claims: seq<Claim>, x: seq<Claim>)
    requires multiset(x) == multiset(claims) && !LatestMayBeSilenced(claims)
    ensures !SilencesLatest(x, PeerSet(claims))
  {
    SpeakingOrderOf(claims, x);
    hide DeclaredFacets, SpeakingOrder, PeerSet;
    SameSilence(x, Speakers(x), PeerSet(claims));
  }

  /** Somebody carries the latest stamp, and is heard in some order. */
  lemma {:induction false} LatestIsHeard(claims: seq<Claim>) returns (c: Claim, q: seq<Claim>)
    requires Peered(claims)
    ensures Latest(PeerSet(claims), c) && multiset(q) == multiset(claims)
    ensures !SilencesLatest(q, PeerSet(claims))
  {
    NotEmpty(claims);
    LineWithin(claims, claims);
    LineMeaning(claims);
    hide Peered, PeerSet, Line, IsNamesake, DeclaredFacets, Text.AtMost;
    assert Ranked(claims)[0] in Ranked(claims);
    HeadInLine(claims);
    hide Ranked, Leading;
    c := SomebodyLatest(PeerSet(claims));
    assert c in PeerSet(claims);
    var p, i := HeardInFront(claims, c);
    q := Leading(p, i);
    HeardPeer(claims, q, c);
  }

  lemma {:induction false} HeadInLine(claims: seq<Claim>)
    requires Ranked(claims) != []
    ensures Line(claims) != {}
  {
    hide Ranked;
    assert Ranked(claims)[0] in Line(claims);
  }

  // --------------------------------------------------------------- states that are raw values

  /** Two sources, both read, report one thing in two states of its own. */
  ghost predicate RawPair(c: Claim, d: Claim) {
    && Peered([c, d]) && c.cls == Observation && d.cls == Observation && c.reachable && d.reachable
    && c.entity.state.Raw? && d.entity.state.Raw? && c.entity.state != d.entity.state
  }

  lemma {:induction false} BothLead(c: Claim, d: Claim)
    requires RawPair(c, d)
    ensures Foremost(LeadersOf({c, d}), c) && StatesDisagree({c, d}, c, d)
    ensures Verdict(Brought({c, d}, c), Conflicts({c, d}) != {}) == c.entity.state
    ensures StateField in Conflicts({c, d})
  {
    hide Peered;
    assert Leads({c, d}, c) && Leads({c, d}, d);
    assert StatesDisagree({c, d}, c, d);
  }

  lemma {:induction false} FirstOfTwoWins(c: Claim, d: Claim)
    requires RawPair(c, d)
    ensures Resolve([c, d]).Merged? && Resolve([c, d]).entity.state == c.entity.state
    ensures StateField in Resolve([c, d]).entity.conflicts
  {
    var claims := [c, d];
    TwoObservations(c, d);
    BothLead(c, d);
    assert Leading(claims, 0) == claims;
    hide Resolve, Peered, Line, IsVerdict, IsLatest, Ranked, Conflicts, LeadersOf, Brought, Foremost, IsFirst, Leading;
    hide StatesDisagree, Verdict;
    MergeMeaning(claims);
    var w := WinnerShown(claims);
    assert claims[0] in Line(claims);
    LeadingIsChosen(claims, 0, LeadersOf({c, d}), w);
  }

  lemma {:induction false} RawPairSwaps(c: Claim, d: Claim)
    requires RawPair(c, d)
    ensures multiset([d, c]) == multiset([c, d]) && RawPair(d, c)
  {
    hide Peered, PeerSet, ScopesAgree, Mergeable, LifecyclesAgree;
    assert multiset([c, d]) == multiset{c, d} == multiset([d, c]);
    PermutedClaims([c, d], [d, c]);
  }

  lemma {:induction false} NobodyDeclares(c: Claim, d: Claim)
    requires c.cls != Declaration && d.cls != Declaration
    ensures LifecyclesAgree([c, d])
  {
    assert forall x :: x in [c, d] <==> x == c || x == d;
    assert !IsRegistry(c) && !IsRegistry(d);
  }

  /** The conflict is listed, and still it is arrival order that resolves it. */
  lemma {:induction false} RawStatesShowOrder(c: Claim, d: Claim)
    requires RawPair(c, d)
    ensures LifecyclesAgree([c, d]) && !StateIgnoresOrder([c, d])
    ensures Resolve([c, d]).Merged? && Resolve([c, d]).entity.state == c.entity.state
    ensures StateField in Resolve([c, d]).entity.conflicts
    ensures Resolve([d, c]).Merged? && Resolve([d, c]).entity.state == d.entity.state
  {
    assert c.entity.state != d.entity.state;
    NobodyDeclares(c, d);
    hide Resolve, RawPair, LifecyclesAgree;
    RawPairSwaps(c, d);
    FirstOfTwoWins(c, d);
    FirstOfTwoWins(d, c);
    assert !SameState([c, d], [d, c]);
  }
}
