/** `console/index/graph.py`: the claims and coverage an index accumulates, and what one build
    of it is. */
module Graph {
  import opened Wrappers
  import opened Model
  import opened Merge
  import opened Passes
  import DutyWindow

  datatype Edge = Edge(source: string, rel: string, target: string)

  /** The relation vocabulary: each forward relation and the name of its reverse. */
  function ReverseName(rel: string): Option<string> {
    match rel
    case "produces" => Some("produced-by")
    case "consumed-by" => Some("consumes")
    case "belongs-to" => Some("contains")
    case "affects" => Some("affected-by")
    case "blocks" => Some("blocked-by")
    case "measures" => Some("measured-by")
    case "runs-on" => Some("hosts")
    case "alias-of" => Some("has-alias")
    case _ => None
  }

  function Reverse(e: Edge): Edge {
    Edge(e.target, ReverseName(e.rel).GetOr(e.rel), e.source)
  }

  /** One adapter's pass over its source. */
  datatype AdapterResult = AdapterResult(
    name: string, ok: bool, cls: ClaimClass, entities: seq<Entity>, edges: seq<Edge>,
    scope: seq<Pair>, horizonDays: Option<real>, cadenceSeconds: Option<real>)

  /** The results added so far, oldest first. */
  datatype History = Start | Then(before: History, last: AdapterResult) {
    ghost predicate Contains(r: AdapterResult) { Then? && (last == r || before.Contains(r)) }
  }

  // ------------------------------------------------------------------------- ingest

  function StampCadence(e: Entity, cadence: Option<real>): Entity {
    if cadence.None? || e.provenance.cadenceSeconds.Some? then e
    else e.(provenance := e.provenance.(cadenceSeconds := cadence))
  }

  function AsUnreported(e: Entity): Entity {
    e.(state := if HasComponentState(e.kind) then UNREPORTED else Raw("unreported-by-source"))
  }

  function ClaimOf(r: AdapterResult, e: Entity): Claim {
    var stamped := StampCadence(e, r.cadenceSeconds);
    Claim(if r.ok then stamped else AsUnreported(stamped), r.cls, r.name, r.ok,
          if r.cls == Discovery then r.scope else [])
  }

  /** Identifiers in order of first arrival, and each one's claims in order of arrival. */
  datatype Ledger = Ledger(ids: seq<string>, claims: map<string, seq<Claim>>)

  function Record(l: Ledger, c: Claim): Ledger {
    var id := c.entity.id;
    if id in l.claims then l.(claims := l.claims[id := l.claims[id] + [c]])
    else Ledger(l.ids + [id], l.claims[id := [c]])
  }

  function RecordFirst(l: Ledger, r: AdapterResult, n: nat): Ledger
    requires n <= |r.entities|
  {
    if n == 0 then l else Record(RecordFirst(l, r, n - 1), ClaimOf(r, r.entities[n - 1]))
  }

  function LedgerOf(history: History): Ledger {
    match history
    case Start => Ledger([], map[])
    case Then(before, r) => RecordFirst(LedgerOf(before), r, |r.entities|)
  }

  ghost predicate Sound(l: Ledger) {
    && (forall id :: id in l.ids <==> id in l.claims)
    && (forall i, j :: 0 <= i < j < |l.ids| ==> l.ids[i] != l.ids[j])
    && forall id :: id in l.claims ==> l.claims[id] != [] && forall c :: c in l.claims[id] ==> c.entity.id == id
  }

  lemma {:induction false} RecordKeepsSound(l: Ledger, c: Claim)
    requires Sound(l)
    ensures Sound(Record(l, c))
  {
  }

  lemma {:induction false} RecordFirstKeepsSound(l: Ledger, r: AdapterResult, n: nat)
    requires Sound(l) && n <= |r.entities|
    ensures Sound(RecordFirst(l, r, n))
  {
    if n > 0 {
      RecordFirstKeepsSound(l, r, n - 1);
      RecordKeepsSound(RecordFirst(l, r, n - 1), ClaimOf(r, r.entities[n - 1]));
    }
  }

  lemma {:induction false} LedgerIsSound(history: History)
    ensures Sound(LedgerOf(history))
  {
    if history.Then? {
      LedgerIsSound(history.before);
      RecordFirstKeepsSound(LedgerOf(history.before), history.last, |history.last.entities|);
    }
  }

  // ----------------------------------------------------------------------- coverage

  function Least(known: Option<real>, h: real): real {
    if known.Some? && known.value <= h then known.value else h
  }

  function HorizonOf(m: map<Pair, real>, pair: Pair): Option<real> { if pair in m then Some(m[pair]) else None }

  function ShortenAll(m: map<Pair, real>, scope: seq<Pair>, h: real): map<Pair, real> {
    if scope == [] then m else
    var n := |scope| - 1;
    var done := ShortenAll(m, scope[..n], h);
    done[scope[n] := Least(HorizonOf(done, scope[n]), h)]
  }

  function NoteHorizon(cov: Coverage, r: AdapterResult): Coverage {
    if r.horizonDays.None? then
      if r.scope != [] then cov.(unlimited := cov.unlimited + set p | p in r.scope)
      else cov.(unlimitedFleetwide := true)
    else if r.scope == [] then
      cov.(horizonFleetwide := Some(Least(cov.horizonFleetwide, r.horizonDays.value)))
    else cov.(horizon := ShortenAll(cov.horizon, r.scope, r.horizonDays.value))
  }

  function Note(cov: Coverage, r: AdapterResult): Coverage {
    if !r.ok then cov
    else if r.cls == Declaration then cov.(okDeclaration := true)
    else if r.cls == Discovery then
      var seen := if r.scope != [] then cov.(okDiscovery := true, scope := cov.scope + set p | p in r.scope)
                  else cov.(okDiscovery := true, fleetwide := true);
      NoteHorizon(seen, r)
    else cov
  }

  const NOTHING_SEEN := Coverage(false, false, {}, false, {}, false, map[], None)

  function CoverageOf(history: History): Coverage {
    match history
    case Start => NOTHING_SEEN
    case Then(before, r) => Note(CoverageOf(before), r)
  }

  // -------------------------------------------------------------------------- a build

  /** Everything a build reads besides the clock. */
  datatype Inputs = Inputs(ledger: Ledger, cov: Coverage, factor: real, marks: map<string, Mark>)

  function Reported(claims: map<string, seq<Claim>>): set<string> {
    set id | id in claims && HasOwnReport(claims[id])
  }

  ghost predicate Collides(l: Ledger)
    requires Sound(l)
  {
    exists id :: id in l.claims && Resolve(l.claims[id]).Collision?
  }

  ghost function Placed(inp: Inputs, id: string, now: real, parse: DutyWindow.Parser): Entity
    requires Sound(inp.ledger) && !Collides(inp.ledger) && id in inp.ledger.claims
  {
    var claims := inp.ledger.claims[id];
    Reconcile(Resolve(claims).entity, claims, inp.cov, now, inp.factor, parse)
  }

  ghost function Reconciled(inp: Inputs, now: real, parse: DutyWindow.Parser): Rows
    requires Sound(inp.ledger) && !Collides(inp.ledger)
  {
    map id | id in inp.ledger.claims :: Placed(inp, id, now, parse)
  }

  /** One build from scratch: merge and reconcile every identifier, then the duty window, the
      aliases, the event triggers and the triage marks. None is a build that raises. */
  ghost function Build(inp: Inputs, now: real, parse: DutyWindow.Parser): Option<Rows> {
    if !Sound(inp.ledger) || Collides(inp.ledger) then None else
    var onDuty := DutyWindow.Resolve(Reconciled(inp, now, parse), inp.factor, parse);
    match InheritAll(AliasPairs(inp.ledger.ids, onDuty), onDuty, Reported(inp.ledger.claims))
    case None => None
    case Some(aliased) => Some(TriageAll(ArmAll(aliased), inp.marks))
  }

  /** The rows of one kind, in the map's own order. */
  function OfKind(ids: seq<string>, rows: Rows, kind: Kind): seq<Entity> {
    if ids == [] then [] else
    var n := |ids| - 1;
    OfKind(ids[..n], rows, kind) + (if ids[n] in rows && rows[ids[n]].kind == kind then [rows[ids[n]]] else [])
  }

  type Parts = map<Kind, seq<Entity>>

  function NoParts(): Parts {
    map[Component := [], Run := [], Cycle := [], Artifact := [], Signal := [], Decision := [], Incident := []]
  }

  function AppendPart(parts: Parts, e: Entity): Parts {
    parts[e.kind := (if e.kind in parts then parts[e.kind] else []) + [e]]
  }

  /** `_by_kind`: every row appended to its kind's list, in the map's own order. */
  function PartsOf(ids: seq<string>, rows: Rows): Parts {
    if ids == [] then NoParts() else
    var n := |ids| - 1;
    if ids[n] in rows then AppendPart(PartsOf(ids[..n], rows), rows[ids[n]]) else PartsOf(ids[..n], rows)
  }

  /** The parts partition the rows: each kind holds its rows, all of them, and no others. */
  lemma {:induction false} PartsMeaning(ids: seq<string>, rows: Rows, kind: Kind)
    ensures kind in PartsOf(ids, rows) && PartsOf(ids, rows)[kind] == OfKind(ids, rows, kind)
  {
    if ids == [] {
      match kind
      case Component => case Run => case Cycle => case Artifact => case Signal => case Decision => case Incident =>
    } else {
      PartsMeaning(ids[..|ids| - 1], rows, kind);
    }
  }

  // ---------------------------------------------------------------------------- edges

  type Adjacency = map<string, seq<Edge>>

  function At(m: Adjacency, id: string): seq<Edge> { if id in m then m[id] else [] }

  function Append(m: Adjacency, id: string, e: Edge): Adjacency { m[id := At(m, id) + [e]] }

  function OutgoingOf(edges: seq<Edge>): Adjacency {
    if edges == [] then map[] else
    var e := edges[|edges| - 1];
    Append(OutgoingOf(edges[..|edges| - 1]), e.source, e)
  }

  function IncomingOf(edges: seq<Edge>): Adjacency {
    if edges == [] then map[] else
    var e := edges[|edges| - 1];
    Append(IncomingOf(edges[..|edges| - 1]), e.target, Reverse(e))
  }

  /** What `id` points at. */
  function From(edges: seq<Edge>, id: string): seq<Edge> {
    if edges == [] then [] else
    var e := edges[|edges| - 1];
    From(edges[..|edges| - 1], id) + (if e.source == id then [e] else [])
  }

  /** What points at `id`, each edge reversed once. */
  function Onto(edges: seq<Edge>, id: string): seq<Edge> {
    if edges == [] then [] else
    var e := edges[|edges| - 1];
    Onto(edges[..|edges| - 1], id) + (if e.target == id then [Reverse(e)] else [])
  }

  /** Each edge is stored once forward and once reversed, and nothing else is. */
  lemma {:induction false} AdjacencyMeaning(edges: seq<Edge>, id: string)
    ensures At(OutgoingOf(edges), id) == From(edges, id)
    ensures At(IncomingOf(edges), id) == Onto(edges, id)
  {
    if edges != [] {
      AdjacencyMeaning(edges[..|edges| - 1], id);
    }
  }

  /** The vocabulary, pair by pair. */
  predicate Converse(rel: string, back: string) {
    || (rel == "produces" && back == "produced-by") || (rel == "consumed-by" && back == "consumes")
    || (rel == "belongs-to" && back == "contains") || (rel == "affects" && back == "affected-by")
    || (rel == "blocks" && back == "blocked-by") || (rel == "measures" && back == "measured-by")
    || (rel == "runs-on" && back == "hosts") || (rel == "alias-of" && back == "has-alias")
  }

  lemma {:induction false} ReverseNameIff(rel: string, back: string)
    ensures ReverseName(rel) == Some(back) <==> Converse(rel, back)
  {
  }

  /** What touches `id`: the edges that leave it, and for each that comes in, one that leaves it for
      where that came from, under the converse name. */
  ghost predicate Touching(edges: seq<Edge>, id: string, e: Edge) {
    || (e in edges && e.source == id)
    || (e.source == id && exists f :: f in edges && f.target == id && f.source == e.target && Converse(f.rel, e.rel))
  }

  lemma {:induction false} FromMeaning(edges: seq<Edge>, id: string, e: Edge)
    ensures e in From(edges, id) <==> e in edges && e.source == id
  {
    if edges != [] {
      FromMeaning(edges[..|edges| - 1], id, e);
      assert edges == edges[..|edges| - 1] + [edges[|edges| - 1]];
    }
  }

  lemma {:induction false} OntoMeaning(edges: seq<Edge>, id: string, e: Edge)
    ensures e in Onto(edges, id) <==> exists f :: f in edges && f.target == id && e == Reverse(f)
  {
    hide Reverse;
    if edges != [] {
      OntoMeaning(edges[..|edges| - 1], id, e);
      assert edges == edges[..|edges| - 1] + [edges[|edges| - 1]];
    }
  }

  lemma {:induction false} ReverseMeaning(f: Edge, e: Edge)
    requires HasRelation(f)
    ensures e == Reverse(f) <==> e.source == f.target && e.target == f.source && Converse(f.rel, e.rel)
  {
    ReverseNameIff(f.rel, e.rel);
    hide ReverseName, Converse;
  }

  /** Both lists together hold exactly what touches `id`, when every edge kept has a known relation. */
  lemma {:induction false} TouchingIff(edges: seq<Edge>, id: string, e: Edge)
    requires forall f :: f in edges ==> HasRelation(f)
    ensures e in From(edges, id) + Onto(edges, id) <==> Touching(edges, id, e)
  {
    FromMeaning(edges, id, e);
    OntoMeaning(edges, id, e);
    forall f | f in edges
      ensures e == Reverse(f) <==> e.source == f.target && e.target == f.source && Converse(f.rel, e.rel)
    {
      ReverseMeaning(f, e);
    }
    hide Reverse, Converse, HasRelation, From, Onto;
  }

  predicate HasRelation(e: Edge) { ReverseName(e.rel).Some? }

  predicate AllKnown(edges: seq<Edge>) {
    edges == [] || (AllKnown(edges[..|edges| - 1]) && HasRelation(edges[|edges| - 1]))
  }

  /** The edges an ingest keeps: those before the first one naming no known relation. */
  function KnownEdges(edges: seq<Edge>): seq<Edge> {
    if edges == [] || !HasRelation(edges[0]) then [] else [edges[0]] + KnownEdges(edges[1..])
  }

  lemma {:induction false} KnownUpTo(edges: seq<Edge>, n: nat)
    requires n <= |edges| && AllKnown(edges[..n]) && (n < |edges| ==> !HasRelation(edges[n]))
    ensures KnownEdges(edges) == edges[..n]
  {
    if n > 0 {
      FirstIsKnown(edges[..n]);
      assert edges[1..][..n - 1] == edges[..n][1..];
      KnownUpTo(edges[1..], n - 1);
      assert edges[..n] == [edges[0]] + edges[1..][..n - 1];
    }
  }

  lemma {:induction false} NoneKnown(edges: seq<Edge>)
    ensures AllKnown(edges[..0])
  {
  }

  lemma {:induction false} OneMoreKnown(edges: seq<Edge>, n: nat)
    requires n < |edges| && AllKnown(edges[..n]) && HasRelation(edges[n])
    ensures AllKnown(edges[..n + 1])
  {
    assert edges[..n + 1][..n] == edges[..n];
  }

  lemma {:induction false} FirstIsKnown(edges: seq<Edge>)
    requires edges != [] && AllKnown(edges)
    ensures HasRelation(edges[0]) && AllKnown(edges[1..])
  {
    if |edges| > 1 {
      var n := |edges| - 1;
      FirstIsKnown(edges[..n]);
      assert edges[1..][..n - 1] == edges[..n][1..];
      assert edges[1..][n - 1] == edges[n];
    }
  }
}
