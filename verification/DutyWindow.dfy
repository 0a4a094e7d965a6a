/** `console/index/duty_window.py`: MISSED rows whose substrate was proven powered down. */
module DutyWindow {
  import opened Wrappers
  import opened Model
  import Text
  import RowPass

  /** `_parse`: an ISO-8601 stamp's instant in seconds, where it has one. */
  type Parser = string -> Option<real>


  function CadenceKey(): Key { Detail("cadence_minutes") }

  function AnchorOf(e: Entity): string { Text.Strip(Read(e.fields, Detail("duty_anchor"))) }

  // ---------------------------------------------------------------- the anchor chain

  /** Whether following anchors from `id` reaches an identifier of `seen`. */
  predicate Revisits(rows: Rows, seen: set<string>, id: string)
    decreases rows.Keys - seen, id in rows
  {
    id in rows && AnchorOf(rows[id]) != "" &&
    (AnchorOf(rows[id]) in seen
     || Revisits(rows, seen + {AnchorOf(rows[id])}, AnchorOf(rows[id])))
  }

  method AnchorChainCycles(start: string, rows: Rows) returns (cycles: bool)
    ensures cycles == Revisits(rows, {start}, start)
  {
    var seen, current := {start}, start;
    while current in rows
      invariant Revisits(rows, {start}, start) == Revisits(rows, seen, current)
      decreases rows.Keys - seen, current in rows
    {
      var next := AnchorOf(rows[current]);
      if next == "" {
        return false;
      }
      if next in seen {
        return true;
      }
      seen, current := seen + {next}, next;
    }
    return false;
  }

  // --------------------------------------------------------------------- the verdict

  function OffDuty(e: Entity, rows: Rows, factor: real, parse: Parser): Option<Entity> {
    var anchorId := AnchorOf(e);
    if e.kind != Component || e.state != Known(Missed) then None
    else if anchorId == "" || anchorId == e.id then None
    else if Revisits(rows, {e.id}, e.id) then None
    else if anchorId !in rows || rows[anchorId].state != Known(Missed) then None
    else
      var anchorLast, rowLast := parse(EffectiveAsOf(rows[anchorId])), parse(EffectiveAsOf(e));
      var cadence := Positive(e.fields, CadenceKey());
      if anchorLast.None? || rowLast.None? || cadence.None? then None
      else if rowLast.value > anchorLast.value then None
      else if rowLast.value + cadence.value * 60.0 * factor < anchorLast.value then None
      else Some(e.(
        state := Known(State.OffDuty),
        fields := e.fields[Detail("off_duty_anchor") := TextValue(anchorId)]
                          [Detail("off_duty_since") := TextValue(EffectiveAsOf(rows[anchorId]))]))
  }

  function Folded(rows: Rows, factor: real, parse: Parser): set<string> {
    set id | id in rows && OffDuty(rows[id], rows, factor, parse).Some?
  }

  /** The envelope artifact of a folded component, while it still reads stale. */
  predicate StaleEnvelope(e: Entity, folded: set<string>) {
    && e.kind == Artifact && Read(e.fields, Detail("check_id")) in folded
    && e.state.Raw? && Text.Lower(Text.Strip(e.state.text)) == "stale"
  }

  function ResolveEntity(e: Entity, rows: Rows, folded: set<string>, factor: real, parse: Parser): Entity {
    var replaced := OffDuty(e, rows, factor, parse);
    if replaced.Some? then replaced.value
    else if StaleEnvelope(e, folded) then e.(state := Raw("off-duty"))
    else e
  }

  function Resolve(rows: Rows, factor: real, parse: Parser): Rows {
    var folded := Folded(rows, factor, parse);
    map id | id in rows :: ResolveEntity(rows[id], rows, folded, factor, parse)
  }

  function Marked(e: Entity, folded: set<string>, resolved: Entity): Entity {
    if StaleEnvelope(e, folded) then e.(state := Raw("off-duty")) else resolved
  }

  method MarkEnvelopes(ids: seq<string>, rows: Rows, folded: set<string>, first: Rows) returns (out: Rows)
    requires Lists(ids, rows) && first.Keys == rows.Keys
    ensures out.Keys == rows.Keys
    ensures forall id :: id in rows ==> out[id] == Marked(rows[id], folded, first[id])
  {
    hide StaleEnvelope;
    out := first;
    for i := 0 to |ids|
      invariant out.Keys == rows.Keys
      invariant forall j :: 0 <= j < i ==> out[ids[j]] == Marked(rows[ids[j]], folded, first[ids[j]])
      invariant forall j :: i <= j < |ids| ==> out[ids[j]] == first[ids[j]]
    {
      var e := rows[ids[i]];
      if StaleEnvelope(e, folded) {
        out := out[ids[i] := e.(state := Raw("off-duty"))];
      }
    }
  }

  lemma {:induction false} TwoStepsResolve(e: Entity, rows: Rows, folded: set<string>, factor: real, parse: Parser)
    ensures Marked(e, folded, OffDuty(e, rows, factor, parse).GetOr(e)) == ResolveEntity(e, rows, folded, factor, parse)
  {
  }

  method ResolveDutyWindow(ids: seq<string>, rows: Rows, factor: real, parse: Parser) returns (out: Rows)
    requires Lists(ids, rows)
    ensures out.Keys == rows.Keys && out == Resolve(rows, factor, parse)
  {
    hide OffDuty, ResolveEntity;
    var first, folded := RowPass.Replace(ids, rows, (e: Entity) => OffDuty(e, rows, factor, parse));
    assert folded == Folded(rows, factor, parse);
    out := first;
    if folded != {} {
      out := MarkEnvelopes(ids, rows, folded, out);
    }
    assert forall id :: id in rows ==> out[id] == Marked(rows[id], folded, first[id]);
    forall id | id in rows ensures out[id] == Resolve(rows, factor, parse)[id] {
      TwoStepsResolve(rows[id], rows, folded, factor, parse);
    }
  }

  // --------------------------------------------------------- what a chain revisit means

  function Follow(rows: Rows, id: string, n: nat): Option<string>
    decreases n
  {
    if n == 0 then Some(id)
    else if id !in rows || AnchorOf(rows[id]) == "" then None
    else Follow(rows, AnchorOf(rows[id]), n - 1)
  }

  lemma {:induction false} FollowOneMore(rows: Rows, id: string, n: nat)
    ensures Follow(rows, id, n + 1) ==
      match Follow(rows, id, n) case None => None case Some(last) => Follow(rows, last, 1)
    decreases n
  {
    if n > 0 && id in rows && AnchorOf(rows[id]) != "" {
      FollowOneMore(rows, AnchorOf(rows[id]), n - 1);
    }
  }

  lemma {:induction false} ChainStaysEnded(rows: Rows, id: string, n: nat, m: nat)
    requires n <= m && Follow(rows, id, n).None?
    ensures Follow(rows, id, m).None?
  {
    if n < m {
      ChainStaysEnded(rows, id, n, m - 1);
      FollowOneMore(rows, id, m - 1);
    }
  }

  /** Following `duty_anchor` from `start` comes back to an identifier already passed. */
  ghost predicate Loops(rows: Rows, start: string) {
    exists i: nat, j: nat :: i < j && Meets(rows, start, i, j)
  }

  ghost predicate Meets(rows: Rows, start: string, i: nat, j: nat) {
    Follow(rows, start, i).Some? && Follow(rows, start, i) == Follow(rows, start, j)
  }

  ghost predicate Passed(rows: Rows, start: string, k: nat, x: string) {
    exists i: nat :: i <= k && Follow(rows, start, i) == Some(x)
  }

  lemma {:induction false} PassedOneMore(rows: Rows, start: string, k: nat, next: string, x: string)
    requires Follow(rows, start, k + 1) == Some(next)
    ensures Passed(rows, start, k + 1, x) <==> Passed(rows, start, k, x) || x == next
  {
    if i: nat :| i <= k && Follow(rows, start, i) == Some(x) {
      assert i <= k + 1;
    }
  }

  lemma {:induction false} RevisitsMeaning(rows: Rows, start: string, seen: set<string>, k: nat, id: string)
    requires Follow(rows, start, k) == Some(id)
    requires forall x :: x in seen <==> Passed(rows, start, k, x)
    requires forall i: nat, j: nat :: i < j <= k ==> !Meets(rows, start, i, j)
    ensures Revisits(rows, seen, id) <==> Loops(rows, start)
    decreases rows.Keys - seen, id in rows
  {
    FollowOneMore(rows, start, k);
    if id !in rows || AnchorOf(rows[id]) == "" {
      forall i: nat, j: nat | i < j ensures !Meets(rows, start, i, j) {
        if j > k {
          ChainStaysEnded(rows, start, k + 1, j);
        }
      }
    } else {
      var next := AnchorOf(rows[id]);
      assert Follow(rows, next, 0) == Some(next);
      assert Follow(rows, start, k + 1) == Some(next);
      if next in seen {
        var i: nat :| i <= k && Follow(rows, start, i) == Some(next);
        assert Meets(rows, start, i, k + 1);
      } else {
        forall x ensures x in seen + {next} <==> Passed(rows, start, k + 1, x) {
          PassedOneMore(rows, start, k, next, x);
        }
        forall i: nat, j: nat | i < j <= k + 1 ensures !Meets(rows, start, i, j) {
          assert j == k + 1 && Follow(rows, start, i) == Some(next) ==> Passed(rows, start, k, next);
        }
        RevisitsMeaning(rows, start, seen + {next}, k + 1, next);
      }
    }
  }

  /** The chain check is true exactly when the chain loops. */
  lemma {:induction false} CyclesMeaning(rows: Rows, start: string)
    ensures Revisits(rows, {start}, start) <==> Loops(rows, start)
  {
    assert Follow(rows, start, 0) == Some(start);
    RevisitsMeaning(rows, start, {start}, 0, start);
  }

  // -------------------------------------------------------------------- what folding keeps

  /** A folded row is explained: somewhere along its chain a row is still MISSED. */
  lemma {:induction false} ChainReachesMissed(
    rows: Rows, factor: real, parse: Parser, seen: set<string>, id: string) returns (n: nat, last: string)
    requires Keyed(rows) && id in Folded(rows, factor, parse) && !Revisits(rows, seen, id)
    ensures n > 0 && Follow(rows, id, n) == Some(last)
    ensures last in rows && Resolve(rows, factor, parse)[last].state == Known(Missed)
    decreases rows.Keys - seen
  {
    var next := AnchorOf(rows[id]);
    assert next in rows && rows[next].state == Known(Missed);
    assert Follow(rows, next, 0) == Some(next);
    if next in Folded(rows, factor, parse) {
      n, last := ChainReachesMissed(rows, factor, parse, seen + {next}, next);
      n := n + 1;
    } else {
      n, last := 1, next;
    }
  }

  /** Every row the pass moves to OFF_DUTY leaves, along its own anchor chain, a row still MISSED. */
  lemma {:induction false} OffDutyKeepsAMissedRow(rows: Rows, factor: real, parse: Parser, id: string)
    requires Keyed(rows) && id in rows && rows[id].state != Known(State.OffDuty)
    requires Resolve(rows, factor, parse)[id].state == Known(State.OffDuty)
    ensures exists n: nat, last ::
      && n > 0 && Follow(rows, id, n) == Some(last)
      && last in rows && Resolve(rows, factor, parse)[last].state == Known(Missed)
  {
    var n, last := ChainReachesMissed(rows, factor, parse, {id}, id);
  }

  lemma {:induction false} RowKeepsAnchor(e: Entity, rows: Rows, folded: set<string>, factor: real, parse: Parser)
    ensures AnchorOf(ResolveEntity(e, rows, folded, factor, parse)) == AnchorOf(e)
    ensures ResolveEntity(e, rows, folded, factor, parse).id == e.id
  {
  }

  lemma {:induction false} ResolveKeepsAnchors(rows: Rows, factor: real, parse: Parser)
    ensures Resolve(rows, factor, parse).Keys == rows.Keys
    ensures forall id :: id in rows ==> AnchorOf(Resolve(rows, factor, parse)[id]) == AnchorOf(rows[id])
    ensures Keyed(rows) ==> Keyed(Resolve(rows, factor, parse))
  {
    forall id | id in rows
      ensures AnchorOf(Resolve(rows, factor, parse)[id]) == AnchorOf(rows[id])
      ensures Resolve(rows, factor, parse)[id].id == rows[id].id
    {
      RowKeepsAnchor(rows[id], rows, Folded(rows, factor, parse), factor, parse);
    }
  }

  lemma {:induction false} SameAnchorsSameChain(rows: Rows, out: Rows, seen: set<string>, id: string)
    requires out.Keys == rows.Keys && forall x :: x in rows ==> AnchorOf(out[x]) == AnchorOf(rows[x])
    ensures Revisits(out, seen, id) == Revisits(rows, seen, id)
    decreases rows.Keys - seen, id in rows
  {
    if id in rows && AnchorOf(rows[id]) != "" && AnchorOf(rows[id]) !in seen {
      SameAnchorsSameChain(rows, out, seen + {AnchorOf(rows[id])}, AnchorOf(rows[id]));
    }
  }

  lemma {:induction false} StillMissedWasKept(rows: Rows, factor: real, parse: Parser, id: string)
    requires id in rows && Resolve(rows, factor, parse)[id].state == Known(Missed)
    ensures Resolve(rows, factor, parse)[id] == rows[id] && OffDuty(rows[id], rows, factor, parse).None?
  {
  }

  /** A row's verdict depends on its own chain and its own anchor only. */
  lemma {:induction false} SameVerdict(e: Entity, rows: Rows, out: Rows, factor: real, parse: Parser)
    requires Revisits(out, {e.id}, e.id) == Revisits(rows, {e.id}, e.id)
    requires AnchorOf(e) in out && out[AnchorOf(e)].state == Known(Missed)
      ==> AnchorOf(e) in rows && out[AnchorOf(e)] == rows[AnchorOf(e)]
    requires OffDuty(e, rows, factor, parse).None?
    ensures OffDuty(e, out, factor, parse).None?
  {
  }

  lemma {:induction false} NothingFoldsTwice(rows: Rows, factor: real, parse: Parser, id: string)
    requires Keyed(rows) && id in rows && Resolve(rows, factor, parse)[id].state == Known(Missed)
    ensures OffDuty(rows[id], Resolve(rows, factor, parse), factor, parse).None?
  {
    var out, anchor := Resolve(rows, factor, parse), AnchorOf(rows[id]);
    StillMissedWasKept(rows, factor, parse, id);
    ResolveKeepsAnchors(rows, factor, parse);
    SameAnchorsSameChain(rows, out, {id}, id);
    if anchor in rows && out[anchor].state == Known(Missed) {
      StillMissedWasKept(rows, factor, parse, anchor);
    }
    SameVerdict(rows[id], rows, out, factor, parse);
  }

  /** Running the pass again changes nothing. */
  lemma {:induction false} ResolveIsIdempotent(rows: Rows, factor: real, parse: Parser)
    requires Keyed(rows)
    ensures Resolve(Resolve(rows, factor, parse), factor, parse) == Resolve(rows, factor, parse)
  {
    var out := Resolve(rows, factor, parse);
    forall id | id in out ensures OffDuty(out[id], out, factor, parse).None? {
      if out[id].state == Known(Missed) {
        StillMissedWasKept(rows, factor, parse, id);
        NothingFoldsTwice(rows, factor, parse, id);
      }
    }
    assert Folded(out, factor, parse) == {};
  }

  /** The row's last run and cadence place it inside its own window at the anchor's last beat. */
  predicate InWindowAtLastBeat(row: Entity, anchor: Entity, factor: real, parse: Parser) {
    var ran, beat, due := parse(EffectiveAsOf(row)), parse(EffectiveAsOf(anchor)), Positive(row.fields, CadenceKey());
    ran.Some? && beat.Some? && due.Some? && ran.value <= beat.value <= ran.value + due.value * 60.0 * factor
  }

  lemma {:induction false} SelfAnchorLoops(rows: Rows, id: string)
    requires id in rows && id != "" && AnchorOf(rows[id]) == id
    ensures Loops(rows, id)
  {
    assert Follow(rows, id, 0) == Some(id);
    assert Meets(rows, id, 0, 1);
  }

  /** A miss folds exactly when it is explained: the chain does not loop, the anchor is itself
      MISSED, and the row was inside its own window when the anchor last beat. */
  lemma {:induction false} OnDutyMissStaysLoud(rows: Rows, factor: real, parse: Parser, id: string)
    requires Keyed(rows) && id in rows && rows[id].kind == Component && rows[id].state == Known(Missed)
    ensures var anchor := AnchorOf(rows[id]);
      Resolve(rows, factor, parse)[id].state == Known(State.OffDuty) <==>
        !Loops(rows, id) && anchor != "" && anchor in rows && rows[anchor].state == Known(Missed)
        && InWindowAtLastBeat(rows[id], rows[anchor], factor, parse)
  {
    CyclesMeaning(rows, id);
    if AnchorOf(rows[id]) == id && id != "" {
      SelfAnchorLoops(rows, id);
    }
  }
}
