/** `Index.set_triage` keeps the landing model computed before it (`console/index/graph.py:204-224`,
    430-435): exactly when the kept model is out of date. */
module LandingMeaning {
  import opened Wrappers
  import opened Model
  import opened Passes
  import opened Graph
  import opened IndexClass
  import opened BuildMeaning
  import DutyWindow

  // --------------------------------------------------------- what a mark leaves on a row

  /** The row's own source ranks it. */
  predicate RanksItself(e: Entity) {
    Read(e.fields, Facet("priority")) != "" ||
    (Detail("fields") in e.fields && "priority" in e.fields[Detail("fields")].names)
  }

  /** What a mark has to say on facet `name` of a row. */
  function Says(e: Entity, mark: Mark, name: string): Option<string> {
    if name == "tracked_by" then Some(mark.issue)
    else if name == "tracked_by_url" && mark.url != "" then Some(mark.url)
    else if name == "priority" && mark.priority != "" && !RanksItself(e) then Some(mark.priority)
    else None
  }

  /** The facet as it reads under a mark, or under none: the mark's word, else the row's own. */
  function Shows(e: Entity, mark: Option<Mark>, name: string): Option<Value> {
    if mark.Some? && Says(e, mark.value, name).Some? then Some(TextValue(Says(e, mark.value, name).value))
    else if Facet(name) in e.fields then Some(e.fields[Facet(name)])
    else None
  }

  predicate ShowAlike(e: Entity, a: Option<Mark>, b: Option<Mark>) {
    && Shows(e, a, "tracked_by") == Shows(e, b, "tracked_by")
    && Shows(e, a, "tracked_by_url") == Shows(e, b, "tracked_by_url")
    && Shows(e, a, "priority") == Shows(e, b, "priority")
  }

  function Stamp(e: Entity, mark: Option<Mark>): Entity {
    match mark
    case None => e
    case Some(m) => Tracked(e, m)
  }

  function FieldOf(e: Entity, k: Key): Option<Value> { if k in e.fields then Some(e.fields[k]) else None }

  /** Stamping changes the three facets to what they show, and nothing else. */
  lemma {:induction false} StampMeaning(e: Entity, mark: Option<Mark>, k: Key)
    ensures Stamp(e, mark) == e.(fields := Stamp(e, mark).fields)
    ensures FieldOf(Stamp(e, mark), k) ==
      if k == Facet("tracked_by") || k == Facet("tracked_by_url") || k == Facet("priority") then Shows(e, mark, k.name)
      else FieldOf(e, k)
  {
  }

  lemma {:induction false} StampsMatchIff(e: Entity, a: Option<Mark>, b: Option<Mark>)
    ensures Stamp(e, a) == Stamp(e, b) <==> ShowAlike(e, a, b)
  {
    forall k ensures ShowAlike(e, a, b) ==> FieldOf(Stamp(e, a), k) == FieldOf(Stamp(e, b), k) {
      StampMeaning(e, a, k);
      StampMeaning(e, b, k);
    }
    StampMeaning(e, a, Facet("tracked_by"));
    StampMeaning(e, b, Facet("tracked_by"));
    StampMeaning(e, a, Facet("tracked_by_url"));
    StampMeaning(e, b, Facet("tracked_by_url"));
    StampMeaning(e, a, Facet("priority"));
    StampMeaning(e, b, Facet("priority"));
    hide Stamp, Shows;
    if ShowAlike(e, a, b) {
      SameFields(Stamp(e, a).fields, Stamp(e, b).fields, Stamp(e, a), Stamp(e, b));
    }
  }

  lemma {:induction false} SameFields(a: Fields, b: Fields, x: Entity, y: Entity)
    requires a == x.fields && b == y.fields && forall k :: FieldOf(x, k) == FieldOf(y, k)
    ensures a == b
  {
    forall k ensures k in a <==> k in b ensures k in a ==> a[k] == b[k] {
      assert FieldOf(x, k) == FieldOf(y, k);
    }
  }

  // --------------------------------------------------------------------- a whole build

  /** The build nobody's marks are stamped on. */
  ghost function Unmarked(inp: Inputs, now: real, parse: DutyWindow.Parser): Option<Rows> {
    Build(inp.(marks := map[]), now, parse)
  }

  lemma {:induction false} NoMarks(rows: Rows)
    ensures TriageAll(rows, map[]) == rows
  {
  }

  lemma {:induction false} MarksAreNotReconciled(inp: Inputs, now: real, parse: DutyWindow.Parser)
    requires Sound(inp.ledger) && !Collides(inp.ledger)
    ensures Reconciled(inp, now, parse) == Reconciled(inp.(marks := map[]), now, parse)
  {
    hide Reconcile, Collides, Sound;
  }

  lemma {:induction false} RestStamps(ids: seq<string>, rows: Rows, reported: set<string>, marks: map<string, Mark>)
    requires forall id :: id in ids ==> id in rows
    ensures var r, bare := Rest(ids, rows, reported, marks), Rest(ids, rows, reported, map[]);
      (r.Some? <==> bare.Some?) && (r.Some? ==> r.value == TriageAll(bare.value, marks))
  {
    hide InheritAll, AliasPairs, ArmAll, TriageAll;
    var aliased := InheritAll(AliasPairs(ids, rows), rows, reported);
    if aliased.Some? {
      NoMarks(ArmAll(aliased.value));
    }
  }

  /** Marks are stamped on the rows of that build, and decide nothing else. */
  lemma {:induction false} MarksOnlyStamp(inp: Inputs, now: real, parse: DutyWindow.Parser)
    ensures Build(inp, now, parse).Some? <==> Unmarked(inp, now, parse).Some?
    ensures Build(inp, now, parse).Some? ==>
      Build(inp, now, parse).value == TriageAll(Unmarked(inp, now, parse).value, inp.marks)
  {
    if Sound(inp.ledger) && !Collides(inp.ledger) {
      var bare := inp.(marks := map[]);
      MarksAreNotReconciled(inp, now, parse);
      BuildThroughAliases(inp, now, parse);
      BuildThroughAliases(bare, now, parse);
      RestStamps(inp.ledger.ids, OnDuty(inp, now, parse), Reported(inp.ledger.claims), inp.marks);
      hide Reconciled, Rest, Sound, Collides, Build, TriageAll;
    }
  }

  /** No row shows a difference between the two sets of marks. */
  ghost predicate MarkedAlike(rows: Rows, one: map<string, Mark>, two: map<string, Mark>) {
    forall id :: id in rows ==> ShowAlike(rows[id], MarkFor(rows[id].id, one), MarkFor(rows[id].id, two))
  }

  /** No row of the unmarked build does, or it raises. */
  ghost predicate MarksAgree(inp: Inputs, one: map<string, Mark>, two: map<string, Mark>, now: real,
                             parse: DutyWindow.Parser)
  {
    Unmarked(inp, now, parse).None? || MarkedAlike(Unmarked(inp, now, parse).value, one, two)
  }

  /** Two sets of marks give one build if and only if it raises or no row shows a difference. */
  lemma {:induction false} MarksShowIff(inp: Inputs, one: map<string, Mark>, two: map<string, Mark>, now: real,
                                        parse: DutyWindow.Parser)
    ensures Build(inp.(marks := one), now, parse) == Build(inp.(marks := two), now, parse) <==>
      MarksAgree(inp, one, two, now, parse)
  {
    MarksOnlyStamp(inp.(marks := one), now, parse);
    MarksOnlyStamp(inp.(marks := two), now, parse);
    hide Build;
    assert inp.(marks := one).(marks := map[]) == inp.(marks := map[]) == inp.(marks := two).(marks := map[]);
    if Unmarked(inp, now, parse).Some? {
      StampedAlikeIff(Unmarked(inp, now, parse).value, one, two);
    }
  }

  lemma {:induction false} StampedAlikeIff(rows: Rows, one: map<string, Mark>, two: map<string, Mark>)
    ensures TriageAll(rows, one) == TriageAll(rows, two) <==> MarkedAlike(rows, one, two)
  {
    hide ShowAlike, MarkFor, Tracked;
    forall id | id in rows
      ensures TriageAll(rows, one)[id] == TriageAll(rows, two)[id] <==>
        ShowAlike(rows[id], MarkFor(rows[id].id, one), MarkFor(rows[id].id, two))
    {
      StampsMatchIff(rows[id], MarkFor(rows[id].id, one), MarkFor(rows[id].id, two));
    }
    hide Triaged;
    assert TriageAll(rows, one).Keys == TriageAll(rows, two).Keys == rows.Keys;
    hide TriageAll;
  }

  /** Any row makes an input: mark it with an issue it does not show yet. */
  lemma {:induction false} NewIssueShows(inp: Inputs, marks: map<string, Mark>, id: string, mark: Mark, now: real,
                                         parse: DutyWindow.Parser)
    requires Unmarked(inp, now, parse).Some? && id in Unmarked(inp, now, parse).value
    requires var row := Unmarked(inp, now, parse).value[id];
      Shows(row, MarkFor(row.id, marks), "tracked_by") != Some(TextValue(mark.issue))
    ensures var row := Unmarked(inp, now, parse).value[id];
      !MarksAgree(inp, marks, marks[row.id := mark], now, parse)
  {
    hide Unmarked;
  }

  // ----------------------------------------------------------------- the kept landing model

  /** A landing model read before and after new marks is one and the same; the build it then stands
      beside is another exactly when some row shows a difference between the marks. */
  method ReadAcrossNewMarks(index: Index, marks: map<string, Mark>, now: real, later: real)
    returns (ok: bool, before: Rows, after: Rows)
    requires index.Valid()
    modifies index
    ensures index.Valid() && index.Current() == old(index.Current()).(marks := marks)
    ensures ok ==> after == before && Build(index.landingInputs, index.landingClock, index.parse) == Some(before)
    ensures ok && old(index.landing).None? ==>
      (Build(index.Current(), index.landingClock, index.parse) == Some(after) <==>
       MarksAgree(index.Current(), old(index.triage), marks, index.landingClock, index.parse))
  {
    hide Build, MarksAgree, Index.Ingested, Index.Linked, Index.Resolved;
    ghost var inp := index.Current();
    ok, before := index.LandingModel(now);
    assert inp.(marks := inp.marks) == inp;
    index.SetTriage(marks);
    if !ok {
      return ok, before, map[];
    }
    ok, after := index.LandingModel(later);
    MarksShowIff(index.Current(), inp.marks, marks, index.landingClock, index.parse);
  }
}
