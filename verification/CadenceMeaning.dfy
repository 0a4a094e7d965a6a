/** When a silent row reads HEALTHY, MISSED or neither (`console/index/cadence_state.py:45-140`), of one
    reconciled row and of a whole build. */
module CadenceMeaning {
  import opened Wrappers
  import opened Model
  import opened Merge
  import opened Passes
  import opened Graph
  import opened BuildMeaning
  import DutyWindow

  /** What the declared cadence has to say of a row. */
  datatype Verdict = Unplaced | Late | Timely

  /** Some source read a window and found nothing in it. */
  predicate ReadNothing(e: Entity) {
    && Detail("window_minutes") in e.fields && Detail("invocations") in e.fields
    && e.fields[Detail("invocations")].number == Some(0.0)
  }

  /** How long the source that saw the last run may itself have been behind. */
  function PollLag(e: Entity): real {
    var field := Of(Detail("last_invocation"));
    if field in e.fieldSources && e.fieldSources[field].cadenceSeconds.Some?
    then e.fieldSources[field].cadenceSeconds.value
    else if e.provenance.cadenceSeconds.Some? then e.provenance.cadenceSeconds.value
    else 0.0
  }

  /** The minutes the registry declares between two runs. */
  function DeclaredMinutes(e: Entity): Option<real> {
    var k := Detail("cadence_minutes");
    if k in e.fields && e.fields[k].number.Some? && e.fields[k].number.value > 0.0 then e.fields[k].number else None
  }

  function LastRun(e: Entity, parse: DutyWindow.Parser): Option<real> {
    var k := Detail("last_invocation");
    if k in e.fields && e.fields[k].truthy && e.fields[k].text != "" then parse(e.fields[k].text) else None
  }

  /** Silence for longer than the declared minutes, stretched by the factor, and the lag on top. */
  function VerdictOn(e: Entity, now: real, factor: real, parse: DutyWindow.Parser): Verdict {
    if !ReadNothing(e) || DeclaredMinutes(e).None? || LastRun(e, parse).None? then Unplaced
    else
      var silence := Lapse(LastRun(e, parse).value, now);
      if silence > DeclaredMinutes(e).value * 60.0 * factor + PollLag(e) then Late else Timely
  }

  function PlacedAs(v: Verdict): StateValue {
    match v
    case Unplaced => Known(Unreported)
    case Late => Known(Missed)
    case Timely => Known(Healthy)
  }

  /** What the registry comparisons place: undeclared, or declared and not there. */
  predicate Misplaced(s: StateValue) { s == Known(State.Unregistered) || s == Known(Absent) }

  predicate HasHealth(e: Entity) { e.kind == Component || e.kind == Run }

  /** A component or run nobody placed, that is not undeclared or absent, is placed by its cadence and
      changed in nothing else. */
  lemma {:induction false} SilentRowIsPlaced(
    e: Entity, claims: seq<Claim>, cov: Coverage, now: real, factor: real, parse: DutyWindow.Parser)
    requires HasHealth(e) && e.state == Known(Unreported)
    ensures var r := Reconcile(e, claims, cov, now, factor, parse);
      r.kind == e.kind && (Misplaced(r.state) || r == e.(state := PlacedAs(VerdictOn(e, now, factor, parse))))
  {
    hide LooksAbsent, Declared, StateName, CadenceState, VerdictOn, Lapse;
    PlacedByCadence(e, now, factor, parse);
  }

  /** How long a row last seen running has been silent. */
  function Lapse(last: real, now: real): real { if now >= last then now - last else 0.0 }

  lemma {:induction false} ReadAlike(e: Entity, now: real, parse: DutyWindow.Parser)
    ensures ReadNothing(e) <==> ObservedSilent(e.fields)
    ensures PollLag(e) == ObserverCadence(e)
    ensures DeclaredMinutes(e) == Positive(e.fields, DutyWindow.CadenceKey())
    ensures SilenceSeconds(e, now, parse).Some? <==> LastRun(e, parse).Some?
    ensures LastRun(e, parse).Some? ==> SilenceSeconds(e, now, parse).value == Lapse(LastRun(e, parse).value, now)
  {
  }

  lemma {:induction false} PlacedByCadence(e: Entity, now: real, factor: real, parse: DutyWindow.Parser)
    requires HasHealth(e) && e.state == Known(Unreported)
    ensures CadenceState(e, now, factor, parse) == e.(state := PlacedAs(VerdictOn(e, now, factor, parse)))
  {
    ReadAlike(e, now, parse);
    hide ReadNothing, ObservedSilent, PollLag, ObserverCadence, DeclaredMinutes, Positive;
    hide SilenceSeconds, LastRun, Lapse;
    assert e == e.(state := Known(Unreported));
  }

  /** Any other state stands, but for a component no registry declares. */
  lemma {:induction false} ReportedRowStands(
    e: Entity, claims: seq<Claim>, cov: Coverage, now: real, factor: real, parse: DutyWindow.Parser)
    requires e.state != Known(Unreported) || (e.kind != Component && e.kind != Run)
    ensures var r := Reconcile(e, claims, cov, now, factor, parse);
      r == e || (e.kind == Component && r.state == Known(State.Unregistered))
  {
    hide Declared, StateName;
  }

  // --------------------------------------------------------------------------- a whole build

  /** What a build may show for a verdict. */
  predicate Shows(v: Verdict, s: StateValue) {
    match v
    case Timely => s == Known(Healthy)
    case Late => s == Known(Missed) || s == Known(State.OffDuty)
    case Unplaced => s == Known(Unreported) || s == Known(State.Armed)
  }

  /** What the later passes make of a row that is rendered for itself: a miss may be folded, a silent
      event-driven row armed, a stale envelope marked. */
  predicate MayBecome(placed: Entity, state: StateValue) {
    || state == placed.state
    || (placed.state == Known(Missed) && state == Known(State.OffDuty) && placed.kind == Component)
    || (placed.state == Known(Unreported) && state == Known(State.Armed))
    || (placed.kind == Artifact && placed.state.Raw? && state == Raw("off-duty"))
  }

  lemma {:induction false} DutyMayMake(rows: Rows, id: string, factor: real, parse: DutyWindow.Parser)
    requires id in rows
    ensures var r := DutyWindow.Resolve(rows, factor, parse);
      id in r && r[id].kind == rows[id].kind && MayBecome(rows[id], r[id].state)
      && (r[id].state == Known(Unreported) ==> rows[id].state == Known(Unreported))
  {
    hide DutyWindow.Revisits, DutyWindow.Folded, DutyWindow.AnchorOf, Positive, EffectiveAsOf;
  }

  lemma {:induction false} ArmMayMake(rows: Rows, marks: map<string, Mark>, id: string)
    requires id in rows
    ensures var r := TriageAll(ArmAll(rows), marks);
      id in r && (r[id].state == rows[id].state ||
                  (rows[id].state == Known(Unreported) && r[id].state == Known(State.Armed)))
  {
    TriageKeeps(ArmAll(rows), marks);
    hide TriageAll, Keyed, ParentOf, EventDriven, TriggerOf;
  }

  lemma {:induction false} LaterPasses(inp: Inputs, id: string, now: real, parse: DutyWindow.Parser)
    requires Sound(inp.ledger) && !Collides(inp.ledger) && Build(inp, now, parse).Some?
    requires id in inp.ledger.claims && id in Reported(inp.ledger.claims)
    ensures id in Build(inp, now, parse).value
    ensures MayBecome(Placed(inp, id, now, parse), Build(inp, now, parse).value[id].state)
  {
    BuildThroughAliases(inp, now, parse);
    var placed, onDuty := Reconciled(inp, now, parse), OnDuty(inp, now, parse);
    assert placed[id] == Placed(inp, id, now, parse);
    DutyMayMake(placed, id, inp.factor, parse);
    hide Placed, Collides, Sound, Build, Reconciled, DutyWindow.Resolve;
    var pairs, reported := AliasPairs(inp.ledger.ids, onDuty), Reported(inp.ledger.claims);
    hide InheritAll, AliasPairs, TriageAll, ArmAll, Reported;
    InheritAllKeepsRows(pairs, onDuty, reported);
    ArmMayMake(InheritAll(pairs, onDuty, reported).value, inp.marks, id);
  }

  /** The merged row the passes start from. */
  function MergedRow(history: History, id: string): Entity
    requires About(history, id) != [] && Resolve(About(history, id)).Merged?
  {
    Resolve(About(history, id)).entity
  }

  /** So a reported component or run that is silent, declared and not absent reads HEALTHY in a build
      exactly while its silence is within bounds; past them it is MISSED, or folded into its anchor's
      miss; and without a cadence, a run seen or a window read it is left UNREPORTED, or armed. */
  lemma {:induction false} BuildPlacesSilence(
    history: History, factor: real, marks: map<string, Mark>, now: real, parse: DutyWindow.Parser,
    rows: Rows, id: string)
    requires Build(InputsOf(history, factor, marks), now, parse) == Some(rows)
    requires About(history, id) != [] && HasOwnReport(About(history, id))
    ensures id in rows && Resolve(About(history, id)).Merged?
    ensures var e := MergedRow(history, id);
      HasHealth(e) && e.state == Known(Unreported) && !Misplaced(rows[id].state) ==>
        Shows(VerdictOn(e, now, factor, parse), rows[id].state)
  {
    var inp := InputsOf(history, factor, marks);
    FiledRow(history, factor, marks, now, parse, id);
    hide InputsOf, Build, About, Resolve, Sound, HasOwnReport, Placed, Reconcile;
    hide Collides, VerdictOn, MayBecome, Reported;
    var e := MergedRow(history, id);
    LaterPasses(inp, id, now, parse);
    if HasHealth(e) && e.state == Known(Unreported) && !Misplaced(rows[id].state) {
      SilentRowIsPlaced(e, About(history, id), inp.cov, now, factor, parse);
      ThenBecomes(e, Placed(inp, id, now, parse), rows[id].state, VerdictOn(e, now, factor, parse));
    }
  }

  lemma {:induction false} FiledRow(history: History, factor: real, marks: map<string, Mark>, now: real,
                                    parse: DutyWindow.Parser, id: string)
    requires Build(InputsOf(history, factor, marks), now, parse).Some?
    requires About(history, id) != [] && HasOwnReport(About(history, id))
    ensures var inp := InputsOf(history, factor, marks);
      && Sound(inp.ledger) && !Collides(inp.ledger) && id in inp.ledger.claims && id in Reported(inp.ledger.claims)
      && Resolve(About(history, id)).Merged?
      && Placed(inp, id, now, parse)
         == Reconcile(MergedRow(history, id), About(history, id), inp.cov, now, factor, parse)
  {
    LedgerMeaning(history, id);
    hide LedgerOf, CoverageOf, About, Resolve, Reconcile, Sound, HasOwnReport;
  }

  lemma {:induction false} ThenBecomes(e: Entity, placed: Entity, state: StateValue, v: Verdict)
    requires MayBecome(placed, state) && !Misplaced(state) && HasHealth(e) && placed.kind == e.kind
    requires Misplaced(placed.state) || placed.state == PlacedAs(v)
    ensures Shows(v, state)
  {
  }
}
