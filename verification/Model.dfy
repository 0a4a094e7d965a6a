/** `console/model`: the closed vocabularies, entities, and one adapter's claim about one entity. */
module Model {
  import opened Wrappers

  datatype Kind = Component | Run | Cycle | Artifact | Signal | Decision | Incident

  datatype State =
    | Healthy | Running | Degraded | Failed | Stalled | Missed | NeverRan
    | Disabled | Deprecated | Retired
    | Absent | Unregistered | Unreported | Armed | OffDuty

  /** One of the fifteen states, or the source's own value verbatim. */
  datatype StateValue = Known(state: State) | Raw(text: string)

  const UNREPORTED: StateValue := Known(Unreported)

  /** The three states only a declaration may supply. */
  predicate DeclaredOnly(s: StateValue) {
    s == Known(Disabled) || s == Known(Deprecated) || s == Known(Retired)
  }

  /** Kinds whose state must be one of the fifteen. */
  predicate HasComponentState(k: Kind) { k == Component || k == Run }

  /** A facet or detail value, by the readings the index takes of it: `str(v)`, `float(v)`,
      `bool(v)`, and the field names it declares when it is a `fields` mapping. */
  datatype Value = Value(text: string, number: Option<real>, truthy: bool, names: set<string>)

  function TextValue(s: string): Value { Value(s, None, s != "", {}) }

  /** Text is read back as it was written, is no number and names no fields; only "" counts as missing. */
  lemma {:induction false} TextReads(s: string)
    ensures TextValue(s).text == s && (TextValue(s).truthy <==> s != "")
    ensures TextValue(s).number == None && TextValue(s).names == {}
  {
  }

  datatype Key = Facet(name: string) | Detail(name: string)

  type Fields = map<Key, Value>

  /** `str(fields.get(key) or "")`. */
  function Read(fields: Fields, key: Key): string {
    if key in fields && fields[key].truthy then fields[key].text else ""
  }

  /** `_positive(fields.get(key))`. */
  function Positive(fields: Fields, key: Key): Option<real> {
    if key in fields && fields[key].number.Some? && fields[key].number.value > 0.0
    then fields[key].number else None
  }

  /** `identity` stands for the object itself: the source compares provenances with `is`.
      `asOf` is "" when the source supplies no stamp. */
  datatype Provenance =
    Provenance(identity: nat, source: string, asOf: string, cadenceSeconds: Option<real>)

  datatype Field = StateField | AsOf | Of(key: Key)

  datatype Proposal = ProposedState(state: StateValue) | ProposedValue(value: Value)

  datatype Loser = Loser(field: Field, proposal: Proposal, source: Provenance)

  datatype Entity = Entity(
    kind: Kind, id: string, state: StateValue, provenance: Provenance, fields: Fields,
    fieldSources: map<Field, Provenance>, superseded: set<Loser>, conflicts: set<Field>)

  /** The totality invariant `Entity.__post_init__` raises on. */
  predicate WellFormed(e: Entity) { HasComponentState(e.kind) ==> e.state.Known? }

  function SourceOf(e: Entity, f: Field): Provenance {
    if f in e.fieldSources then e.fieldSources[f] else e.provenance
  }

  /** The as-of that won the merge. */
  function EffectiveAsOf(e: Entity): string { SourceOf(e, AsOf).asOf }

  datatype ClaimClass = Declaration | Observation | Discovery {
    function Rank(): int {
      match this
      case Declaration => 1
      case Observation => 2
      case Discovery => 3
    }
  }

  datatype Claim = Claim(
    entity: Entity, cls: ClaimClass, adapter: string, reachable: bool, scope: seq<(string, Value)>)

  /** The resolved map, keyed by identifier. */
  type Rows = map<string, Entity>

  ghost predicate Keyed(rows: Rows) { forall id :: id in rows ==> rows[id].id == id }

  /** `ids` lists the keys of `rows` in the map's own order. */
  ghost predicate Lists(ids: seq<string>, rows: Rows) {
    && (forall id :: id in ids <==> id in rows)
    && forall i, j :: 0 <= i < j < |ids| ==> ids[i] != ids[j]
  }
}
