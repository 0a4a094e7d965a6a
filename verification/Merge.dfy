/** `console/index/merge.py`: several sources describing one entity. */
module Merge {
  import opened Wrappers
  import opened Model
  import opened Sorting
  import Text

  // ------------------------------------------------------------------ namesakes

  /** Facets declared by reachable declarations; the first arrival supplies a facet. */
  function DeclaredFacets(claims: seq<Claim>): map<string, Value> {
    if claims == [] then map[] else
    var earlier := DeclaredFacets(claims[..|claims| - 1]);
    var c := claims[|claims| - 1];
    if c.cls == Declaration && c.reachable then FacetsOf(c.entity.fields) + earlier else earlier
  }

  function FacetsOf(fields: Fields): map<string, Value> {
    map k | k in fields && k.Facet? :: k.name := fields[k]
  }

  method CollectDeclaredFacets(claims: seq<Claim>) returns (facets: map<string, Value>)
    ensures facets == DeclaredFacets(claims)
  {
    facets := map[];
    for i := 0 to |claims|
      invariant facets == DeclaredFacets(claims[..i])
    {
      assert claims[..i + 1][..i] == claims[..i];
      if claims[i].cls == Declaration && claims[i].reachable {
        facets := FacetsOf(claims[i].entity.fields) + facets;
      }
    }
    assert claims[..|claims|] == claims;
  }

  /** A scoped discovery claim about a different thing of this name. */
  predicate IsNamesake(c: Claim, declared: map<string, Value>) {
    && c.cls == Discovery && c.scope != []
    && !(exists i :: 0 <= i < |c.scope| && c.scope[i].0 in declared && declared[c.scope[i].0] == c.scope[i].1)
    && exists i :: 0 <= i < |c.scope| && c.scope[i].0 in declared
  }

  function Peers(claims: seq<Claim>, declared: map<string, Value>): seq<Claim> {
    if claims == [] then []
    else (if IsNamesake(claims[0], declared) then [] else [claims[0]]) + Peers(claims[1..], declared)
  }

  function ClassRank(c: Claim): int { c.cls.Rank() }

  // ---------------------------------------------------------------------- state

  /** Precedence for `state` alone, which is not the claim rank. */
  function StateRank(c: Claim): int {
    if !c.reachable then 4
    else if c.cls == Declaration then (if DeclaredOnly(c.entity.state) then 0 else 3)
    else if c.cls == Observation then 1
    else 2
  }

  /** The lifecycle guard: a declared-only state from anything but a declaration is set aside. */
  predicate Admissible(c: Claim) { DeclaredOnly(c.entity.state) ==> c.cls == Declaration }

  function AdmissibleOf(s: seq<Claim>): seq<Claim> {
    if s == [] then [] else
    AdmissibleOf(s[..|s| - 1]) + (if Admissible(s[|s| - 1]) then [s[|s| - 1]] else [])
  }

  datatype StateVerdict =
    StateVerdict(state: StateValue, winner: Provenance, losers: set<Loser>, contested: bool)

  function StateLoser(c: Claim): Loser {
    Loser(StateField, ProposedState(c.entity.state), c.entity.provenance)
  }

  predicate Contests(c: Claim, best: Claim) {
    && c.entity.state != best.entity.state
    && c.reachable && best.reachable && StateRank(c) == StateRank(best)
  }

  function SetAside(s: seq<Claim>): set<Loser> {
    if s == [] then {} else
    SetAside(s[..|s| - 1]) + (if Admissible(s[|s| - 1]) then {} else {StateLoser(s[|s| - 1])})
  }

  function Beaten(best: Claim, s: seq<Claim>): set<Loser> {
    if s == [] then {} else
    var c := s[|s| - 1];
    Beaten(best, s[..|s| - 1]) + (if c.entity.state == best.entity.state then {} else {StateLoser(c)})
  }

  predicate ContestedBy(best: Claim, s: seq<Claim>) {
    s != [] && (Contests(s[|s| - 1], best) || ContestedBy(best, s[..|s| - 1]))
  }

  function ResolveState(ordered: seq<Claim>): StateVerdict
    requires ordered != []
  {
    var ranked := SortBy(AdmissibleOf(ordered), StateRank);
    if ranked == [] then StateVerdict(UNREPORTED, ordered[0].entity.provenance, SetAside(ordered), false)
    else
      var best, rest := ranked[0], ranked[1..];
      StateVerdict(best.entity.state, best.entity.provenance,
                   SetAside(ordered) + Beaten(best, rest), ContestedBy(best, rest))
  }

  method MergeState(ordered: seq<Claim>) returns (v: StateVerdict)
    requires ordered != []
    ensures v == ResolveState(ordered)
  {
    var aside: set<Loser> := {};
    var admissible: seq<Claim> := [];
    for i := 0 to |ordered|
      invariant admissible == AdmissibleOf(ordered[..i])
      invariant aside == SetAside(ordered[..i])
    {
      assert ordered[..i + 1][..i] == ordered[..i];
      if Admissible(ordered[i]) {
        admissible := admissible + [ordered[i]];
      } else {
        aside := aside + {StateLoser(ordered[i])};
      }
    }
    assert ordered[..|ordered|] == ordered;
    var ranked := SortBy(admissible, StateRank);
    if ranked == [] {
      return StateVerdict(UNREPORTED, ordered[0].entity.provenance, aside, false);
    }
    var best, rest := ranked[0], ranked[1..];
    var beaten: set<Loser> := {};
    var contested := false;
    for i := 0 to |rest|
      invariant beaten == Beaten(best, rest[..i])
      invariant contested == ContestedBy(best, rest[..i])
    {
      assert rest[..i + 1][..i] == rest[..i];
      if rest[i].entity.state != best.entity.state {
        beaten := beaten + {StateLoser(rest[i])};
        if rest[i].reachable && best.reachable && StateRank(rest[i]) == StateRank(best) {
          contested := true;
        }
      }
    }
    assert rest[..|rest|] == rest;
    v := StateVerdict(best.entity.state, best.entity.provenance, aside + beaten, contested);
  }

  // ---------------------------------------------------- facets and detail, per key

  datatype FieldTable = FieldTable(
    sink: Fields, sources: map<Key, Provenance>, losers: set<Loser>, conflicts: set<Key>)

  /** Whether the claim behind the recorded winner holds this claim rank. */
  predicate SameRankAsWinner(ordered: seq<Claim>, rank: int, winner: Provenance) {
    ordered != [] &&
    if ordered[0].entity.provenance.identity == winner.identity
    then ordered[0].cls.Rank() == rank
    else SameRankAsWinner(ordered[1..], rank, winner)
  }

  function PutField(ordered: seq<Claim>, c: Claim, t: FieldTable, k: Key): FieldTable
    requires k in c.entity.fields && t.sink.Keys == t.sources.Keys
  {
    var v, mine := c.entity.fields[k], c.entity.provenance;
    if k !in t.sink then t.(sink := t.sink[k := v], sources := t.sources[k := mine])
    else if t.sink[k] == v || t.sources[k].identity == mine.identity then t
    else t.(
      losers := t.losers + {Loser(Of(k), ProposedValue(v), mine)},
      conflicts := if SameRankAsWinner(ordered, c.cls.Rank(), t.sources[k]) then t.conflicts + {k} else t.conflicts)
  }

  /** The keys on which `c` disagrees with a value already recorded by another claim. */
  function Lost(c: Claim, t: FieldTable): set<Key>
    requires t.sink.Keys == t.sources.Keys
  {
    set k | k in c.entity.fields && k in t.sink && t.sink[k] != c.entity.fields[k]
      && t.sources[k].identity != c.entity.provenance.identity
  }

  function LostField(c: Claim, k: Key): Loser
    requires k in c.entity.fields
  {
    Loser(Of(k), ProposedValue(c.entity.fields[k]), c.entity.provenance)
  }

  function Credits(c: Claim): map<Key, Provenance> {
    map k | k in c.entity.fields :: c.entity.provenance
  }

  function Take<V>(m: map<Key, V>, keys: set<Key>): map<Key, V>
    requires keys <= m.Keys
  {
    map k | k in keys :: m[k]
  }

  lemma {:induction false} TakeOneMore<V>(m: map<Key, V>, below: map<Key, V>, done: set<Key>, k: Key)
    requires done <= m.Keys && k in m && k !in done
    ensures Take(m, done + {k}) + below
         == if k in below then Take(m, done) + below else (Take(m, done) + below)[k := m[k]]
    ensures k in Take(m, done) + below <==> k in below
    ensures k in below ==> (Take(m, done) + below)[k] == below[k]
  {
  }

  function LostFields(c: Claim, keys: set<Key>): set<Loser>
    requires keys <= c.entity.fields.Keys
  {
    set k | k in keys :: LostField(c, k)
  }

  function Equals(ordered: seq<Claim>, rank: int, t: FieldTable, keys: set<Key>): set<Key>
    requires keys <= t.sources.Keys
  {
    set k | k in keys && SameRankAsWinner(ordered, rank, t.sources[k])
  }

  /** `t` after the keys `done` of `c` are put: a key nobody holds yet is taken, a
      disagreement is recorded. */
  function PutSome(ordered: seq<Claim>, c: Claim, t: FieldTable, done: set<Key>): FieldTable
    requires t.sink.Keys == t.sources.Keys && done <= c.entity.fields.Keys
  {
    var lost := done * Lost(c, t);
    FieldTable(
      Take(c.entity.fields, done) + t.sink,
      Take(Credits(c), done) + t.sources,
      t.losers + LostFields(c, lost),
      t.conflicts + Equals(ordered, c.cls.Rank(), t, lost))
  }

  /** One claim's turn. */
  function PutClaim(ordered: seq<Claim>, c: Claim, t: FieldTable): FieldTable
    requires t.sink.Keys == t.sources.Keys
  {
    PutSome(ordered, c, t, c.entity.fields.Keys)
  }

  lemma {:induction false} LoseOneMore(ordered: seq<Claim>, c: Claim, t: FieldTable, keys: set<Key>, k: Key)
    requires keys <= c.entity.fields.Keys && keys <= t.sources.Keys && k in c.entity.fields && k in t.sources
    ensures LostFields(c, keys + {k}) == LostFields(c, keys) + {LostField(c, k)}
    ensures var rank := c.cls.Rank();
      Equals(ordered, rank, t, keys + {k}) ==
        Equals(ordered, rank, t, keys) + if SameRankAsWinner(ordered, rank, t.sources[k]) then {k} else {}
  {
    hide SameRankAsWinner;
  }

  lemma {:induction false} PutOneMore(ordered: seq<Claim>, c: Claim, t: FieldTable, done: set<Key>, k: Key)
    requires t.sink.Keys == t.sources.Keys && done <= c.entity.fields.Keys
    requires k in c.entity.fields && k !in done
    ensures PutField(ordered, c, PutSome(ordered, c, t, done), k) == PutSome(ordered, c, t, done + {k})
  {
    hide Take, Equals, LostFields, SameRankAsWinner;
    var lost := Lost(c, t);
    TakeOneMore(c.entity.fields, t.sink, done, k);
    TakeOneMore(Credits(c), t.sources, done, k);
    if k in lost {
      assert (done + {k}) * lost == done * lost + {k};
      LoseOneMore(ordered, c, t, done * lost, k);
    } else {
      assert (done + {k}) * lost == done * lost;
    }
    hide Lost;
  }

  /** One claim's turn takes `t` to `r`, seen from one key. */
  ghost predicate Puts(ordered: seq<Claim>, c: Claim, t: FieldTable, r: FieldTable, k: Key) {
    var held := k in c.entity.fields;
    && t.sink.Keys == t.sources.Keys && r.sink.Keys == r.sources.Keys
    && (k in r.sink <==> k in t.sink || held)
    && (k in t.sink ==> r.sink[k] == t.sink[k] && r.sources[k] == t.sources[k])
    && (k !in t.sink && held ==> r.sink[k] == c.entity.fields[k] && r.sources[k] == c.entity.provenance)
    && (k in r.conflicts <==> (k in t.conflicts || NewConflict(ordered, c, t, k)))
  }

  ghost predicate NewConflict(ordered: seq<Claim>, c: Claim, t: FieldTable, k: Key)
    requires t.sink.Keys == t.sources.Keys
  {
    && k in c.entity.fields && k in t.sink && t.sink[k] != c.entity.fields[k]
    && t.sources[k].identity != c.entity.provenance.identity
    && SameRankAsWinner(ordered, c.cls.Rank(), t.sources[k])
  }

  lemma {:induction false} PutClaimAt(ordered: seq<Claim>, c: Claim, t: FieldTable, k: Key)
    requires t.sink.Keys == t.sources.Keys
    ensures Puts(ordered, c, t, PutClaim(ordered, c, t), k)
  {
  }

  function PutClaims(ordered: seq<Claim>, n: nat): (t: FieldTable)
    requires n <= |ordered|
    ensures t.sink.Keys == t.sources.Keys
  {
    if n == 0 then FieldTable(map[], map[], {}, {})
    else PutClaim(ordered, ordered[n - 1], PutClaims(ordered, n - 1))
  }

  method PutEach(ordered: seq<Claim>, c: Claim, before: FieldTable) returns (t: FieldTable)
    requires before.sink.Keys == before.sources.Keys
    ensures t == PutClaim(ordered, c, before)
  {
    t := before;
    var fields := c.entity.fields;
    var todo := fields.Keys;
    assert PutSome(ordered, c, before, fields.Keys - todo) == before;
    while todo != {}
      invariant todo <= fields.Keys
      invariant t.sink.Keys == t.sources.Keys
      invariant t == PutSome(ordered, c, before, fields.Keys - todo)
      decreases todo
    {
      var k :| k in todo;
      PutOneMore(ordered, c, before, fields.Keys - todo, k);
      t := PutField(ordered, c, t, k);
      assert fields.Keys - (todo - {k}) == fields.Keys - todo + {k};
      todo := todo - {k};
    }
    assert fields.Keys - todo == fields.Keys;
  }

  method MergeFields(ordered: seq<Claim>) returns (t: FieldTable)
    ensures t == PutClaims(ordered, |ordered|)
  {
    t := FieldTable(map[], map[], {}, {});
    for i := 0 to |ordered|
      invariant t == PutClaims(ordered, i)
    {
      t := PutEach(ordered, ordered[i], t);
    }
  }

  // ----------------------------------------------------------------------- merge

  lemma {:induction false} PeersMembers(claims: seq<Claim>, declared: map<string, Value>)
    ensures forall c :: c in Peers(claims, declared) <==> c in claims && !IsNamesake(c, declared)
  {
    if claims != [] {
      PeersMembers(claims[1..], declared);
      assert claims == [claims[0]] + claims[1..];
    }
  }

  lemma {:induction false} NoDeclarationNoFacets(claims: seq<Claim>)
    requires forall c :: c in claims ==> c.cls != Declaration
    ensures DeclaredFacets(claims) == map[]
  {
    if claims != [] {
      NoDeclarationNoFacets(claims[..|claims| - 1]);
    }
  }

  /** A merge always has somebody to listen to: not every claim can be a namesake. */
  lemma {:induction false} PeersNeverEmpty(claims: seq<Claim>)
    requires claims != []
    ensures Ranked(claims) != []
    ensures forall c :: c in Ranked(claims) <==> c in claims && !IsNamesake(c, DeclaredFacets(claims))
  {
    var declared := DeclaredFacets(claims);
    PeersMembers(claims, declared);
    SortByMeaning(Peers(claims, declared), ClassRank);
    assert IsNamesake(claims[0], declared) ==> declared != map[];
    if forall c :: c in claims ==> c.cls != Declaration {
      NoDeclarationNoFacets(claims);
    }
  }

  /** The provenance with the latest as-of; the state's winner when no claim carries one. */
  function Freshest(ordered: seq<Claim>, fallback: Provenance): Provenance {
    if ordered == [] then fallback else
    var earlier := Freshest(ordered[..|ordered| - 1], fallback);
    var p := ordered[|ordered| - 1].entity.provenance;
    if p.asOf == "" then earlier
    else if Stamped(ordered[..|ordered| - 1]) && Text.AtMost(p.asOf, earlier.asOf) then earlier
    else p
  }

  predicate Stamped(s: seq<Claim>) { exists c :: c in s && c.entity.provenance.asOf != "" }

  datatype Outcome = Merged(entity: Entity) | Collision

  predicate OneKind(claims: seq<Claim>) {
    forall c, d :: c in claims && d in claims ==> c.entity.kind == d.entity.kind
  }

  function AllConflicts(t: FieldTable, v: StateVerdict): set<Field> {
    (set k | k in t.conflicts :: Of(k)) + (if v.contested then {StateField} else {})
  }

  /** What the namesakes said, kept although they contest nothing. */
  function AsideLosers(claims: seq<Claim>, declared: map<string, Value>): set<Loser> {
    var aside := set c | c in claims && IsNamesake(c, declared);
    (set c | c in aside :: StateLoser(c)) + (set c, k | c in aside && k in c.entity.fields :: LostField(c, k))
  }

  function SourcesOf(t: FieldTable, winner: Provenance, freshest: Provenance): map<Field, Provenance> {
    (map k | k in t.sources :: Of(k) := t.sources[k])[StateField := winner][AsOf := freshest]
  }

  function Combine(base: Entity, claims: seq<Claim>, declared: map<string, Value>, ordered: seq<Claim>,
                   v: StateVerdict, t: FieldTable): Entity {
    var freshest := Freshest(ordered, v.winner);
    var conflicts := AllConflicts(t, v);
    Entity(
      base.kind, base.id,
      if conflicts != {} && v.state.Known? && !DeclaredOnly(v.state) then Known(Degraded) else v.state,
      freshest, t.sink, SourcesOf(t, v.winner, freshest),
      AsideLosers(claims, declared) + v.losers + t.losers, conflicts)
  }

  function Ranked(claims: seq<Claim>): seq<Claim> {
    SortBy(Peers(claims, DeclaredFacets(claims)), ClassRank)
  }

  function Resolve(claims: seq<Claim>): Outcome
    requires claims != []
  {
    if !OneKind(claims) then Collision
    else if |claims| == 1 then Merged(claims[0].entity)
    else
      var ordered := Ranked(claims);
      PeersNeverEmpty(claims);
      Merged(Combine(ordered[0].entity, claims, DeclaredFacets(claims), ordered,
                     ResolveState(ordered), PutClaims(ordered, |ordered|)))
  }

  method Merge(claims: seq<Claim>) returns (o: Outcome)
    requires claims != []
    ensures o == Resolve(claims)
  {
    if exists c, d :: c in claims && d in claims && c.entity.kind != d.entity.kind {
      return Collision;
    }
    if |claims| == 1 {
      return Merged(claims[0].entity);
    }
    var declared := CollectDeclaredFacets(claims);
    var ordered := SortBy(Peers(claims, declared), ClassRank);
    PeersNeverEmpty(claims);
    var v := MergeState(ordered);
    var t := MergeFields(ordered);
    o := Merged(Combine(ordered[0].entity, claims, declared, ordered, v, t));
  }
}
