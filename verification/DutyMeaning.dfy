/** What the duty pass makes of each row, read off the rows' own fields
    (`console/index/duty_window.py:60-150`). */
module DutyMeaning {
  import opened Wrappers
  import opened Model
  import opened DutyWindow
  import Text

  /** The anchor a row names. */
  function NamedAnchor(e: Entity): string {
    var k := Detail("duty_anchor");
    if k in e.fields && e.fields[k].truthy then Text.Strip(e.fields[k].text) else ""
  }

  /** The as-of of whoever is credited with it. */
  function CreditedStamp(e: Entity): string {
    if AsOf in e.fieldSources then e.fieldSources[AsOf].asOf else e.provenance.asOf
  }

  /** The row ran no later than the anchor's last beat, and no more than its stretched cadence before. */
  predicate RanInWindow(row: Entity, anchor: Entity, factor: real, parse: Parser) {
    var ran, beat, k := parse(CreditedStamp(row)), parse(CreditedStamp(anchor)), Detail("cadence_minutes");
    && ran.Some? && beat.Some? && ran.value <= beat.value
    && k in row.fields && row.fields[k].number.Some? && row.fields[k].number.value > 0.0
    && beat.value <= ran.value + row.fields[k].number.value * 60.0 * factor
  }

  /** A component's miss that its anchor's explains. */
  ghost predicate Explained(rows: Rows, id: string, factor: real, parse: Parser)
    requires id in rows
  {
    var e := rows[id];
    && e.kind == Component && e.state == Known(Missed) && !Loops(rows, id)
    && NamedAnchor(e) != "" && NamedAnchor(e) in rows && rows[NamedAnchor(e)].state == Known(Missed)
    && RanInWindow(e, rows[NamedAnchor(e)], factor, parse)
  }

  /** An artifact that reads stale and is the envelope of a row so explained. */
  ghost predicate Envelope(rows: Rows, id: string, factor: real, parse: Parser)
    requires id in rows
  {
    var e := rows[id];
    && e.kind == Artifact && e.state.Raw? && Text.Lower(Text.Strip(e.state.text)) == "stale"
    && EnvelopeOf(e) in rows && Explained(rows, EnvelopeOf(e), factor, parse)
  }

  function EnvelopeOf(e: Entity): string {
    var k := Detail("check_id");
    if k in e.fields && e.fields[k].truthy then e.fields[k].text else ""
  }

  lemma {:induction false} Readings(e: Entity, anchor: Entity, factor: real, parse: Parser)
    ensures AnchorOf(e) == NamedAnchor(e) && EffectiveAsOf(e) == CreditedStamp(e)
    ensures InWindowAtLastBeat(e, anchor, factor, parse) == RanInWindow(e, anchor, factor, parse)
  {
    assert Text.Strip("") == "";
    hide Text.Strip;
  }

  lemma {:induction false} FoldedIff(rows: Rows, id: string, factor: real, parse: Parser)
    requires Keyed(rows) && id in rows
    ensures id in Folded(rows, factor, parse) <==> Explained(rows, id, factor, parse)
  {
    CyclesMeaning(rows, id);
    if NamedAnchor(rows[id]) in rows {
      Readings(rows[id], rows[NamedAnchor(rows[id])], factor, parse);
    } else {
      Readings(rows[id], rows[id], factor, parse);
    }
    if AnchorOf(rows[id]) == id && id != "" {
      SelfAnchorLoops(rows, id);
    }
    hide Loops, Revisits, AnchorOf, NamedAnchor, EffectiveAsOf, CreditedStamp, Positive;
  }

  /** An explained miss is OFF_DUTY and says since when and by whom; its envelope reads off-duty; every
      other row is as it was. */
  lemma {:induction false} DutyRowMeaning(rows: Rows, id: string, factor: real, parse: Parser)
    requires Keyed(rows) && id in rows
    ensures id in Resolve(rows, factor, parse)
    ensures var e, out := rows[id], Resolve(rows, factor, parse)[id];
      out ==
        if Explained(rows, id, factor, parse) then
          e.(state := Known(State.OffDuty),
             fields := e.fields[Detail("off_duty_anchor") := TextValue(NamedAnchor(e))]
                               [Detail("off_duty_since") := TextValue(CreditedStamp(rows[NamedAnchor(e)]))])
        else if Envelope(rows, id, factor, parse) then e.(state := Raw("off-duty"))
        else e
  {
    var e := rows[id];
    FoldedIff(rows, id, factor, parse);
    Readings(e, e, factor, parse);
    if NamedAnchor(e) in rows {
      Readings(rows[NamedAnchor(e)], e, factor, parse);
    }
    if EnvelopeOf(e) in rows {
      FoldedIff(rows, EnvelopeOf(e), factor, parse);
    }
    hide Loops, Revisits, AnchorOf, NamedAnchor, EffectiveAsOf, CreditedStamp, RanInWindow, Positive;
    hide Text.Strip, Text.Lower;
  }
}
