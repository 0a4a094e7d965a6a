/** The passes `Index.finalize` runs besides the duty window: `console/index/cadence_state.py`,
    `console/index/event_trigger.py`, and the reconcile, alias and triage passes of
    `console/index/graph.py`. */
module Passes {
  import opened Wrappers
  import opened Model
  import opened Merge
  import opened DutyWindow
  import Text
  import RowPass

  type Pair = (string, Value)

  predicate Has(e: Entity, pair: Pair) {
    Facet(pair.0) in e.fields && e.fields[Facet(pair.0)] == pair.1
  }

  // ------------------------------------------------------------------- cadence state

  predicate ObservedSilent(fields: Fields) {
    && Detail("invocations") in fields && Detail("window_minutes") in fields
    && fields[Detail("invocations")].number == Some(0.0)
  }

  function ObserverCadence(e: Entity): real {
    var own := SourceOf(e, Of(Detail("last_invocation"))).cadenceSeconds;
    (if own.Some? then own else e.provenance.cadenceSeconds).GetOr(0.0)
  }

  /** How long the component has been silent; never negative. */
  function SilenceSeconds(e: Entity, now: real, parse: Parser): Option<real> {
    var last := Read(e.fields, Detail("last_invocation"));
    if last == "" then None
    else match parse(last)
      case None => None
      case Some(stamp) => Some(if now > stamp then now - stamp else 0.0)
  }

  function CadenceState(e: Entity, now: real, factor: real, parse: Parser): Entity {
    var cadence, silence := Positive(e.fields, CadenceKey()), SilenceSeconds(e, now, parse);
    if !HasComponentState(e.kind) || e.state != UNREPORTED || !ObservedSilent(e.fields)
       || cadence.None? || silence.None? then e
    else if silence.value > cadence.value * 60.0 * factor + ObserverCadence(e) then e.(state := Known(Missed))
    else e.(state := Known(Healthy))
  }

  // ----------------------------------------------------------------------- reconcile

  /** What the adapter passes so far have looked at. */
  datatype Coverage = Coverage(
    okDiscovery: bool, okDeclaration: bool,
    scope: set<Pair>, fleetwide: bool,
    unlimited: set<Pair>, unlimitedFleetwide: bool,
    horizon: map<Pair, real>, horizonFleetwide: Option<real>)

  /** Could any successful discovery pass have found this entity? */
  predicate WithinScope(e: Entity, cov: Coverage) {
    cov.fleetwide || exists pair :: pair in cov.scope && Has(e, pair)
  }

  predicate EventDriven(e: Entity) {
    Text.Lower(Text.Strip(Read(e.fields, Detail("cadence")))) == "event_driven"
  }

  /** The declared cadence, in minutes: 0 when none is declared, absent when it is not a number. */
  function DeclaredCadence(e: Entity): Option<real> {
    if CadenceKey() in e.fields && e.fields[CadenceKey()].truthy then e.fields[CadenceKey()].number else Some(0.0)
  }

  /** The declaration allows a silence longer than a pass of this horizon can see. */
  predicate MayOutlast(e: Entity, horizonDays: real) {
    EventDriven(e) || (DeclaredCadence(e).Some? && DeclaredCadence(e).value > horizonDays * 1440.0)
  }

  /** Every pass covering `e` sees only recent activity, and `e` may be silent for longer. Being
      longer than the shortest horizon is being longer than one of them. */
  predicate SilenceOutlivesHorizon(e: Entity, cov: Coverage) {
    && !cov.unlimitedFleetwide && !(exists pair :: pair in cov.unlimited && Has(e, pair))
    && ((cov.horizonFleetwide.Some? && MayOutlast(e, cov.horizonFleetwide.value))
        || exists pair :: pair in cov.horizon && Has(e, pair) && MayOutlast(e, cov.horizon[pair]))
  }

  function Unregistered(e: Entity): Entity {
    if e.state.Known? && e.state != Known(State.Unregistered)
    then e.(state := Known(State.Unregistered),
         fields := e.fields[Detail("reported_state") := TextValue(StateName(e.state.state))])
    else e.(state := Known(State.Unregistered))
  }

  function StateName(s: State): string {
    match s
    case Healthy => "HEALTHY" case Running => "RUNNING" case Degraded => "DEGRADED" case Failed => "FAILED"
    case Stalled => "STALLED" case Missed => "MISSED" case NeverRan => "NEVER_RAN" case Disabled => "DISABLED"
    case Deprecated => "DEPRECATED" case Retired => "RETIRED" case Absent => "ABSENT"
    case Unregistered => "UNREGISTERED" case Unreported => "UNREPORTED" case Armed => "ARMED" case OffDuty => "OFF_DUTY"
  }

  predicate Declared(claims: seq<Claim>) { exists c :: c in claims && c.cls == Declaration }

  predicate Discovered(claims: seq<Claim>) {
    exists c :: c in claims && c.cls == Discovery && !IsNamesake(c, DeclaredFacets(claims))
  }

  predicate LooksAbsent(e: Entity, claims: seq<Claim>, cov: Coverage) {
    && Declared(claims) && !Discovered(claims) && cov.okDiscovery
    && e.state == UNREPORTED && WithinScope(e, cov) && !SilenceOutlivesHorizon(e, cov)
  }

  function Reconcile(e: Entity, claims: seq<Claim>, cov: Coverage, now: real, factor: real, parse: Parser): Entity {
    if !HasComponentState(e.kind) then e
    else if e.kind == Component && !Declared(claims) && cov.okDeclaration then Unregistered(e)
    else if e.kind == Component && LooksAbsent(e, claims, cov) then e.(state := Known(Absent))
    else CadenceState(e, now, factor, parse)
  }

  // ------------------------------------------------------------------------- aliases

  /** A reachable report on this very thing: not a declaration, not a namesake. */
  predicate HasOwnReport(claims: seq<Claim>) {
    exists c :: c in claims && c.cls != Declaration && c.reachable && !IsNamesake(c, DeclaredFacets(claims))
  }

  function ParentOf(e: Entity): string { Read(e.fields, Detail("alias_of")) }

  datatype Alias = Alias(id: string, parent: string)

  function AliasPairs(ids: seq<string>, rows: Rows): seq<Alias>
    requires forall id :: id in ids ==> id in rows
  {
    if ids == [] then [] else
    var n := |ids| - 1;
    AliasPairs(ids[..n], rows)
    + (if ParentOf(rows[ids[n]]) == "" then [] else [Alias(ids[n], ParentOf(rows[ids[n]]))])
  }

  /** `e` renders the state and as-of of `other`, and says so. */
  function Inherit(e: Entity, other: Entity): Entity {
    e.(state := other.state, provenance := e.provenance.(asOf := EffectiveAsOf(other)),
       fields := e.fields[Detail("alias_state") := TextValue("inherited")])
  }

  /** Which row a pair rewrites, and from which: the side with no report of its own follows. */
  function Follower(a: Alias, rows: Rows, reported: set<string>): Option<(string, string)> {
    if a.id !in rows || a.parent !in rows then None
    else if a.id !in reported then Some((a.id, a.parent))
    else if a.parent !in reported then Some((a.parent, a.id))
    else None
  }

  /** None: a component would be given a state outside the fifteen, which raises. */
  function InheritOne(a: Alias, rows: Rows, reported: set<string>): Option<Rows> {
    match Follower(a, rows, reported)
    case None => Some(rows)
    case Some((to, from)) =>
      var e := Inherit(rows[to], rows[from]);
      if WellFormed(e) then Some(rows[to := e]) else None
  }

  function InheritAll(pairs: seq<Alias>, rows: Rows, reported: set<string>): Option<Rows> {
    if pairs == [] then Some(rows) else
    match InheritAll(pairs[..|pairs| - 1], rows, reported)
    case None => None
    case Some(sofar) => InheritOne(pairs[|pairs| - 1], sofar, reported)
  }

  method CollectAliases(ids: seq<string>, rows: Rows) returns (pairs: seq<Alias>)
    requires Lists(ids, rows)
    ensures pairs == AliasPairs(ids, rows)
  {
    pairs := [];
    for i := 0 to |ids|
      invariant pairs == AliasPairs(ids[..i], rows)
    {
      assert ids[..i + 1][..i] == ids[..i];
      var parent := ParentOf(rows[ids[i]]);
      if parent != "" {
        pairs := pairs + [Alias(ids[i], parent)];
      }
    }
    assert ids[..|ids|] == ids;
  }

  method ApplyAliasInheritance(ids: seq<string>, rows: Rows, reported: set<string>) returns (out: Option<Rows>)
    requires Lists(ids, rows)
    ensures out == InheritAll(AliasPairs(ids, rows), rows, reported)
  {
    var pairs := CollectAliases(ids, rows);
    out := Some(rows);
    for i := 0 to |pairs|
      invariant out == InheritAll(pairs[..i], rows, reported)
    {
      assert pairs[..i + 1][..i] == pairs[..i];
      if out.Some? {
        out := InheritOne(pairs[i], out.value, reported);
      }
    }
    assert pairs[..|pairs|] == pairs;
  }

  // ------------------------------------------------------------------- event triggers

  predicate Intact(s: StateValue) { s == Known(Healthy) || s == Known(NeverRan) || s == Known(Running) }

  function TriggerOf(e: Entity): string { Text.Strip(Read(e.fields, Detail("event_trigger_anchor"))) }

  function Armed(e: Entity, rows: Rows): Option<Entity> {
    if !HasComponentState(e.kind) || e.state != UNREPORTED || !EventDriven(e) || TriggerOf(e) == ""
       || TriggerOf(e) !in rows || !Intact(rows[TriggerOf(e)].state) then None
    else Some(e.(state := Known(State.Armed)))
  }

  function ArmAll(rows: Rows): Rows { map id | id in rows :: Armed(rows[id], rows).GetOr(rows[id]) }

  method ResolveEventTriggers(ids: seq<string>, rows: Rows) returns (out: Rows)
    requires Lists(ids, rows)
    ensures out.Keys == rows.Keys && out == ArmAll(rows)
  {
    var changed;
    out, changed := RowPass.Replace(ids, rows, (e: Entity) => Armed(e, rows));
    assert out == ArmAll(rows);
  }

  // -------------------------------------------------------------------------- triage

  datatype Mark = Mark(issue: string, url: string, priority: string)

  function BeforeAt(id: string): string {
    if id == "" || id[0] == '@' then "" else [id[0]] + BeforeAt(id[1..])
  }

  /** An exact entry wins; a bare `<check>` entry covers every run `<check>@...`. */
  function MarkFor(id: string, marks: map<string, Mark>): Option<Mark> {
    if id in marks then Some(marks[id])
    else if '@' in id && BeforeAt(id) in marks then Some(marks[BeforeAt(id)])
    else None
  }

  function Tracked(e: Entity, mark: Mark): Entity {
    var own := Read(e.fields, Facet("priority")) != ""
      || (Detail("fields") in e.fields && "priority" in e.fields[Detail("fields")].names);
    var named := e.fields[Facet("tracked_by") := TextValue(mark.issue)];
    var linked := if mark.url != "" then named[Facet("tracked_by_url") := TextValue(mark.url)] else named;
    e.(fields := if mark.priority != "" && !own then linked[Facet("priority") := TextValue(mark.priority)] else linked)
  }

  function Triaged(e: Entity, marks: map<string, Mark>): Option<Entity> {
    match MarkFor(e.id, marks)
    case None => None
    case Some(mark) => Some(Tracked(e, mark))
  }

  function TriageAll(rows: Rows, marks: map<string, Mark>): Rows {
    map id | id in rows :: Triaged(rows[id], marks).GetOr(rows[id])
  }

  method ApplyTriage(ids: seq<string>, rows: Rows, marks: map<string, Mark>) returns (out: Rows)
    requires Lists(ids, rows)
    ensures out.Keys == rows.Keys && out == TriageAll(rows, marks)
  {
    var changed;
    out, changed := RowPass.Replace(ids, rows, (e: Entity) => Triaged(e, marks));
    assert out == TriageAll(rows, marks);
  }
}
