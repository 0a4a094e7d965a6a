/** What a day's cell says, read off the records' own fields
    (`console/adapters/pipeline_reliability.py:590-822`). */
module PipelineCells {
  import opened Wrappers
  import opened Pipeline
  import opened PipelineMeaning
  import Text

  // ------------------------------------------------------------------- a record's own fields

  predicate Ended(r: Record) { Text.Lower(r.status) == "succeeded" }

  /** The history was read and lists one of the states. */
  predicate Visited(r: Record, names: set<string>) {
    r.entered.Some? && exists s :: s in r.entered.value && s in names
  }

  /** By the error it failed with, or by a state it went through. */
  predicate Impaired(r: Record, c: Config) {
    (r.error != "" && r.error in c.errors) || Visited(r, c.degraded)
  }

  predicate TurnedAway(r: Record, c: Config) { Ended(r) && Visited(r, c.gate) }

  predicate Scheduled(r: Record, c: Config) {
    r.role.Some? && r.role.value in c.cadence && !TurnedAway(r, c)
  }

  predicate Tried(r: Record, c: Config) {
    r.role.Some? && (r.role.value in c.cadence || r.role.value in c.recovery) && !TurnedAway(r, c)
  }

  predicate Skipped(r: Record, c: Config) { r.role.Some? && r.role.value in c.cadence && TurnedAway(r, c) }

  predicate Sound(r: Record, c: Config) { Ended(r) && !Impaired(r, c) }

  lemma {:induction false} Readings(r: Record, c: Config)
    ensures Succeeds(r) == Ended(r) && IsDegraded(r, c) == Impaired(r, c) && Clean(r, c) == Sound(r, c)
    ensures CadenceRun(r, c) == Scheduled(r, c) && Attempt(r, c) == Tried(r, c) && GateNoop(r, c) == Skipped(r, c)
  {
    VisitedMeaning(r, c.degraded);
    VisitedMeaning(r, c.gate);
    hide EnteredAny, Visited, Text.Lower;
  }

  lemma {:induction false} VisitedMeaning(r: Record, names: set<string>)
    ensures EnteredAny(r, names) == Visited(r, names)
  {
    if r.entered.Some? {
      var both := names * r.entered.value;
      if both != {} {
        var s :| s in both;
        assert s in r.entered.value && s in names;
      }
      if s :| s in r.entered.value && s in names {
        assert s in both;
      }
    }
  }

  // ------------------------------------------------------------------------ counting records

  /** How many of the records satisfy `p`. */
  function HowMany(rs: seq<Record>, p: Record -> bool): nat {
    if rs == [] then 0 else HowMany(rs[..|rs| - 1], p) + if p(rs[|rs| - 1]) then 1 else 0
  }

  ghost predicate FirstAt(rs: seq<Record>, p: Record -> bool, i: nat) {
    i < |rs| && p(rs[i]) && forall j :: 0 <= j < i ==> !p(rs[j])
  }

  lemma {:induction false} FilterSplit(a: seq<Record>, b: seq<Record>, p: Record -> bool)
    ensures Filter(a + b, p) == Filter(a, p) + Filter(b, p)
  {
    if a == [] {
      assert a + b == b;
    } else {
      FilterSplit(a[1..], b, p);
      assert (a + b)[0] == a[0] && (a + b)[1..] == a[1..] + b;
      var head := if p(a[0]) then [a[0]] else [];
      assert Filter(a + b, p) == head + (Filter(a[1..], p) + Filter(b, p));
      assert Filter(a, p) == head + Filter(a[1..], p);
    }
  }

  lemma {:induction false} FilterCounts(rs: seq<Record>, p: Record -> bool)
    ensures |Filter(rs, p)| == HowMany(rs, p)
  {
    if rs != [] {
      var n := |rs| - 1;
      FilterCounts(rs[..n], p);
      FilterSplit(rs[..n], [rs[n]], p);
      assert rs == rs[..n] + [rs[n]];
      assert [rs[n]][1..] == [] && Filter([], p) == [];
    }
  }

  lemma {:induction false} FilterNone(rs: seq<Record>, p: Record -> bool)
    requires forall j :: 0 <= j < |rs| ==> !p(rs[j])
    ensures Filter(rs, p) == []
  {
    if rs != [] {
      FilterNone(rs[1..], p);
    }
  }

  /** The first of those that satisfy `p`. */
  lemma {:induction false} FilterFirst(rs: seq<Record>, p: Record -> bool, i: nat)
    requires FirstAt(rs, p, i)
    ensures Filter(rs, p) != [] && Filter(rs, p)[0] == rs[i]
  {
    FilterNone(rs[..i], p);
    FilterSplit(rs[..i], rs[i..], p);
    assert rs == rs[..i] + rs[i..];
    assert Filter(rs[i..], p)[0] == rs[i];
  }

  lemma {:induction false} SamePredicate(rs: seq<Record>, p: Record -> bool, q: Record -> bool)
    requires forall r :: p(r) == q(r)
    ensures Filter(rs, p) == Filter(rs, q)
  {
    if rs != [] {
      SamePredicate(rs[1..], p, q);
    }
  }

  // ------------------------------------------------------------------------------- the cell

  /** What the first scheduled run makes of its day. */
  ghost function StateOfDay(rs: seq<Record>, i: nat, c: Config): CycleState
    requires i < |rs|
  {
    if Impaired(rs[i], c) then Degraded
    else if Ended(rs[i]) then Succeeded
    else if exists j :: 0 <= j < |rs| && rs[j].start > rs[i].start && Sound(rs[j], c) then FailedRecovered
    else FailedUnrecovered
  }

  /** When the day's work was done: the first run's own end, or that of the earliest success after it
      when a sound one is among them. */
  ghost predicate StopSays(rs: seq<Record>, i: nat, c: Config, stop: Option<Stamp>)
    requires i < |rs|
  {
    if Ended(rs[i]) then stop == rs[i].stop
    else if exists j :: 0 <= j < |rs| && rs[j].start > rs[i].start && Sound(rs[j], c)
    then exists k: nat :: LaterEnd(rs, i, k) && stop == rs[k].stop
    else stop == None
  }

  ghost predicate LaterEnd(rs: seq<Record>, i: nat, k: nat) {
    && i < |rs| && k < |rs| && rs[k].start > rs[i].start && Ended(rs[k])
    && forall j :: 0 <= j < k ==> !(rs[j].start > rs[i].start && Ended(rs[j]))
  }

  /** The deepest declared stage the history lists; nothing without one. */
  ghost predicate StageSays(r: Record, stages: seq<string>, stage: Option<string>, depth: Option<nat>) {
    if stages == [] || r.entered.None? || r.entered.value == {} then stage.None? && depth.None?
    else
      && depth.Some? && depth.value <= |stages|
      && (forall j :: depth.value <= j < |stages| ==> stages[j] !in r.entered.value)
      && if depth.value == 0 then stage.None?
         else stages[depth.value - 1] in r.entered.value && stage == Some(stages[depth.value - 1])
  }

  ghost predicate FirstSays(rs: seq<Record>, i: nat, c: Config, f: First)
    requires i < |rs|
  {
    && f.evidence == rs[i].key && f.status == rs[i].status && f.error == rs[i].error
    && f.ok == Ended(rs[i]) && f.clean == Sound(rs[i], c)
    && StopSays(rs, i, c, f.stop) && StageSays(rs[i], c.stages, f.stage, f.depth)
  }

  ghost predicate PlacedAt(rs: seq<Record>, c: Config, k: nat, place: Option<nat>) {
    && FirstAt(rs, r => Tried(r, c) && Sound(r, c), k)
    && place == Some(HowMany(rs[..k + 1], r => Tried(r, c)))
  }

  /** The place, among those that tried, of the first that came out sound. */
  ghost predicate PlaceSays(rs: seq<Record>, c: Config, place: Option<nat>) {
    if exists j :: 0 <= j < |rs| && Tried(rs[j], c) && Sound(rs[j], c)
    then exists k: nat :: PlacedAt(rs, c, k, place)
    else place == None
  }

  ghost predicate DecidedBy(rs: seq<Record>, i: nat, c: Config, cell: Cycle) {
    && FirstAt(rs, r => Scheduled(r, c), i) && cell.state == StateOfDay(rs, i, c)
    && cell.first.Some? && FirstSays(rs, i, c, cell.first.value)
  }

  ghost predicate OutcomeSays(d: Day, rs: seq<Record>, c: Config, today: Day, cell: Cycle) {
    if exists j :: 0 <= j < |rs| && Scheduled(rs[j], c)
    then exists i: nat :: DecidedBy(rs, i, c, cell)
    else cell.first.None? && cell.state == if d >= today then Pending else NeverFired
  }

  /** The cell of a day, all of it: what happened, how often, and what the first run came to. */
  ghost predicate CellSays(d: Day, rs: seq<Record>, c: Config, cutovers: map<Day, string>, today: Day, cell: Cycle) {
    && cell.date == d && cell.executions == |rs|
    && cell.cadenceRuns == HowMany(rs, r => Scheduled(r, c))
    && cell.attempts == HowMany(rs, r => Tried(r, c))
    && cell.gateNoops == HowMany(rs, r => Skipped(r, c))
    && cell.cutover == (if d in cutovers then Some(cutovers[d]) else None)
    && PlaceSays(rs, c, cell.attemptsToSuccess) && OutcomeSays(d, rs, c, today, cell)
  }

  lemma {:induction false} CountsMeaning(rs: seq<Record>, c: Config)
    ensures |CadenceToday(rs, c)| == HowMany(rs, r => Scheduled(r, c))
    ensures |AttemptsOn(rs, c)| == HowMany(rs, r => Tried(r, c))
    ensures |GateNoops(rs, c)| == HowMany(rs, r => Skipped(r, c))
  {
    AllReadings(c);
    hide CadenceRun, Scheduled, Attempt, Tried, GateNoop, Skipped, Filter, HowMany;
    SamePredicate(rs, r => CadenceRun(r, c), r => Scheduled(r, c));
    SamePredicate(rs, r => Attempt(r, c), r => Tried(r, c));
    SamePredicate(rs, r => GateNoop(r, c), r => Skipped(r, c));
    FilterCounts(rs, r => Scheduled(r, c));
    FilterCounts(rs, r => Tried(r, c));
    FilterCounts(rs, r => Skipped(r, c));
  }

  lemma {:induction false} AllReadings(c: Config)
    ensures forall r :: CadenceRun(r, c) == Scheduled(r, c) && Attempt(r, c) == Tried(r, c)
    ensures forall r :: GateNoop(r, c) == Skipped(r, c) && Clean(r, c) == Sound(r, c)
  {
    forall r
      ensures CadenceRun(r, c) == Scheduled(r, c) && Attempt(r, c) == Tried(r, c)
      ensures GateNoop(r, c) == Skipped(r, c) && Clean(r, c) == Sound(r, c)
    {
      Readings(r, c);
    }
  }

  lemma {:induction false} FirstIndexIs(rs: seq<Record>, p: Record -> bool, i: nat)
    requires FirstAt(rs, p, i)
    ensures FirstIndex(rs, p) == i
  {
    hide FirstIndex;
  }

  lemma {:induction false} SomeFirst(rs: seq<Record>, p: Record -> bool, j: nat) returns (i: nat)
    requires j < |rs| && p(rs[j])
    ensures FirstAt(rs, p, i)
  {
    i := FirstIndex(rs, p);
  }

  lemma {:induction false} PlaceMeaning(rs: seq<Record>, c: Config)
    ensures PlaceSays(rs, c, CleanPlace(AttemptsOn(rs, c), c))
  {
    AllReadings(c);
    hide CadenceRun, Scheduled, Attempt, Tried, GateNoop, Skipped, Filter, HowMany, Clean, Sound, FirstIndex;
    var tried, sound := (r: Record) => Tried(r, c), (r: Record) => Clean(r, c);
    var attempts := AttemptsOn(rs, c);
    SamePredicate(rs, r => Attempt(r, c), tried);
    if j: nat :| j < |rs| && Tried(rs[j], c) && Sound(rs[j], c) {
      var k := SomeFirst(rs, r => Tried(r, c) && Sound(r, c), j);
      FilterSplit(rs[..k + 1], rs[k + 1..], tried);
      FilterSplit(rs[..k], [rs[k]], tried);
      assert rs == rs[..k + 1] + rs[k + 1..] && rs[..k + 1] == rs[..k] + [rs[k]];
      OneKept(rs[k], tried);
      FilterCounts(rs[..k + 1], tried);
      var before := Filter(rs[..k], tried);
      forall x | 0 <= x < |before| ensures !sound(before[x]) {
        FilterKeeps(rs[..k], tried, before[x]);
        var y :| 0 <= y < k && rs[y] == before[x];
      }
      assert attempts == before + [rs[k]] + Filter(rs[k + 1..], tried);
      assert FirstAt(attempts, sound, |before|);
      FirstIndexIs(attempts, sound, |before|);
      assert PlacedAt(rs, c, k, CleanPlace(attempts, c));
    } else {
      forall x | 0 <= x < |attempts| ensures !sound(attempts[x]) {
        FilterKeeps(rs, tried, attempts[x]);
        var y :| 0 <= y < |rs| && rs[y] == attempts[x];
      }
      assert FirstIndex(attempts, sound) == |attempts|;
    }
  }

  lemma {:induction false} OneKept(r: Record, p: Record -> bool)
    requires p(r)
    ensures Filter([r], p) == [r]
  {
    assert [r][1..] == [] && Filter([], p) == [];
  }

  /** A cell says of its day exactly what the records do. */
  lemma {:induction false} CellReadsItsRecords(
    d: Day, rs: seq<Record>, c: Config, cutovers: map<Day, string>, today: Day)
    ensures CellSays(d, rs, c, cutovers, today, CycleOf(d, rs, c, cutovers, today))
  {
    CountsMeaning(rs, c);
    PlaceMeaning(rs, c);
    OutcomeMeaning(d, rs, c, cutovers, today);
    hide CadenceToday, AttemptsOn, GateNoops, CleanPlace, FirstState, FirstOf, HowMany, PlaceSays, OutcomeSays;
  }

  lemma {:induction false} OutcomeMeaning(d: Day, rs: seq<Record>, c: Config, cutovers: map<Day, string>, today: Day)
    ensures OutcomeSays(d, rs, c, today, CycleOf(d, rs, c, cutovers, today))
  {
    AllReadings(c);
    hide CadenceRun, Scheduled, Attempt, Tried, GateNoop, Skipped, Filter, HowMany, Clean, Sound, FirstIndex;
    hide FirstOf, FirstSays, LaterSuccess, FirstState, StateOfDay, CleanPlace;
    SamePredicate(rs, r => CadenceRun(r, c), r => Scheduled(r, c));
    if j: nat :| 0 <= j < |rs| && Scheduled(rs[j], c) {
      var i := SomeFirst(rs, r => Scheduled(r, c), j);
      FilterFirst(rs, r => Scheduled(r, c), i);
      FirstRunMeaning(rs, i, c);
      assert DecidedBy(rs, i, c, CycleOf(d, rs, c, cutovers, today));
    } else {
      FilterNone(rs, r => Scheduled(r, c));
    }
  }

  lemma {:induction false} FirstRunMeaning(rs: seq<Record>, i: nat, c: Config)
    requires i < |rs|
    ensures FirstState(rs[i], LaterSuccess(rs, rs[i], c), c) == StateOfDay(rs, i, c)
    ensures FirstSays(rs, i, c, FirstOf(rs, rs[i], c))
  {
    AllReadings(c);
    Readings(rs[i], c);
    StageMeaning(rs[i], c.stages);
    StopMeaning(rs, i, c);
    hide IsDegraded, Impaired, Succeeds, Ended, Clean, Sound, StopUsed, StopSays, StageOf, StageSays;
  }

  lemma {:induction false} StageMeaning(r: Record, stages: seq<string>)
    ensures StageSays(r, stages, StageOf(r, stages).0, StageOf(r, stages).1)
  {
    if stages != [] && r.entered.Some? {
      DeepestMeaning(stages, r.entered.value, |stages|);
    }
  }

  lemma {:induction false} StopMeaning(rs: seq<Record>, i: nat, c: Config)
    requires i < |rs|
    ensures StopSays(rs, i, c, StopUsed(rs, rs[i], LaterSuccess(rs, rs[i], c)))
  {
    forall r ensures Succeeds(r) == Ended(r) && Clean(r, c) == Sound(r, c) && (Sound(r, c) ==> Ended(r)) {
      Readings(r, c);
    }
    hide Succeeds, Ended, Clean, Sound, FirstIndex;
    if j :| 0 <= j < |rs| && rs[j].start > rs[i].start && Sound(rs[j], c) {
      assert Recovers(rs[j], rs[i]);
      var k := FirstIndex(rs, r => Recovers(r, rs[i]));
      assert k <= j;
      assert LaterEnd(rs, i, k);
    }
  }

  // --------------------------------------------------------------------- what a history shows

  /** Read with one history or another, of which only one goes through a declared degraded state, the
      first run of a day gives two different cells. */
  lemma {:induction false} HistoryShows(
    d: Day, rs: seq<Record>, i: nat, one: set<string>, two: set<string>, c: Config,
    cutovers: map<Day, string>, today: Day)
    requires i < |rs| && (rs[i].error == "" || rs[i].error !in c.errors)
    requires (exists s :: s in one && s in c.degraded) && !(exists s :: s in two && s in c.degraded)
    requires var r1, r2 := rs[i].(entered := Some(one)), rs[i].(entered := Some(two));
      FirstAt(rs[i := r1], r => Scheduled(r, c), i) && FirstAt(rs[i := r2], r => Scheduled(r, c), i)
    ensures var r1, r2 := rs[i].(entered := Some(one)), rs[i].(entered := Some(two));
      && CycleOf(d, rs[i := r1], c, cutovers, today).state == Degraded
      && CycleOf(d, rs[i := r2], c, cutovers, today).state != Degraded
  {
    var r1, r2 := rs[i].(entered := Some(one)), rs[i].(entered := Some(two));
    FirstDecides(d, rs[i := r1], i, c, cutovers, today);
    FirstDecides(d, rs[i := r2], i, c, cutovers, today);
    assert Impaired(r1, c) && !Impaired(r2, c);
    hide CycleOf, Scheduled, Impaired;
  }

  lemma {:induction false} FirstDecides(
    d: Day, rs: seq<Record>, i: nat, c: Config, cutovers: map<Day, string>, today: Day)
    requires FirstAt(rs, r => Scheduled(r, c), i)
    ensures CycleOf(d, rs, c, cutovers, today).state == StateOfDay(rs, i, c)
  {
    OutcomeMeaning(d, rs, c, cutovers, today);
    hide CycleOf, Scheduled, StateOfDay, FirstSays;
    assert Scheduled(rs[i], c);
    var k: nat :| DecidedBy(rs, k, c, CycleOf(d, rs, c, cutovers, today));
    assert k == i;
  }

  /** A fired day is DEGRADED exactly when its first scheduled run failed with a declared error, or went
      through a declared state, as far as its history was read. */
  lemma {:induction false} DegradedIff(
    d: Day, rs: seq<Record>, i: nat, c: Config, cutovers: map<Day, string>, today: Day)
    requires FirstAt(rs, r => Scheduled(r, c), i)
    ensures CycleOf(d, rs, c, cutovers, today).state == Degraded <==>
      || (rs[i].error != "" && rs[i].error in c.errors)
      || (rs[i].entered.Some? && exists s :: s in rs[i].entered.value && s in c.degraded)
  {
    FirstDecides(d, rs, i, c, cutovers, today);
    hide CycleOf, Scheduled;
  }

  // -------------------------------------------------------------- whose histories are wanted

  ghost predicate FirstRunAt(rs: seq<Record>, c: Config, i: nat) { FirstAt(rs, r => Scheduled(r, c), i) }

  ghost predicate IsFirstRun(rs: seq<Record>, r: Record, c: Config) {
    exists i: nat :: FirstRunAt(rs, c, i) && rs[i] == r
  }

  /** Started after the first run of its day. */
  ghost predicate CameLater(rs: seq<Record>, r: Record, c: Config) {
    exists i: nat :: FirstRunAt(rs, c, i) && r.start > rs[i].start
  }

  /** A record's history is wanted when it is unread and the gate may have turned it away; or it is the
      first run and stages or degraded states are declared; or degraded states are, and it ended well as
      an attempt or after the first run. */
  ghost predicate Wanted(rs: seq<Record>, r: Record, c: Config) {
    && r in rs && r.entered.None?
    && ((c.gate != {} && r.role.Some? && r.role.value in c.cadence)
        || ((c.stages != [] || c.degraded != {}) && IsFirstRun(rs, r, c))
        || (c.degraded != {} && Ended(r) && (Tried(r, c) || CameLater(rs, r, c))))
  }

  lemma {:induction false} FirstRunIs(rs: seq<Record>, c: Config)
    ensures var runs := CadenceToday(rs, c);
      && (runs == [] ==> forall r :: !IsFirstRun(rs, r, c) && !CameLater(rs, r, c))
      && (runs != [] ==> forall r :: (IsFirstRun(rs, r, c) <==> r == runs[0])
                                 && (CameLater(rs, r, c) <==> r.start > runs[0].start))
  {
    AllReadings(c);
    hide CadenceRun, Scheduled, Attempt, Tried, GateNoop, Skipped, Filter;
    SamePredicate(rs, r => CadenceRun(r, c), r => Scheduled(r, c));
    if j: nat :| j < |rs| && Scheduled(rs[j], c) {
      var i := SomeFirst(rs, r => Scheduled(r, c), j);
      FilterFirst(rs, r => Scheduled(r, c), i);
      assert FirstRunAt(rs, c, i) && forall k: nat :: FirstRunAt(rs, c, k) ==> k == i;
    } else {
      FilterNone(rs, r => Scheduled(r, c));
    }
  }

  lemma {:induction false} NeededOnIff(rs: seq<Record>, c: Config, k: string)
    ensures k in NeededOn(rs, c) <==> exists r :: Wanted(rs, r, c) && r.key == k
  {
    AllReadings(c);
    FirstRunIs(rs, c);
    forall r ensures Succeeds(r) == Ended(r) {
      Readings(r, c);
    }
    hide CadenceRun, Scheduled, Attempt, Tried, GateNoop, Skipped, CadenceToday, Succeeds, Ended, IsFirstRun, CameLater;
    if r :| Wanted(rs, r, c) && r.key == k {
      assert r in rs;
    }
  }

  /** The keys read beforehand are exactly those of the wanted records of the window's days. */
  lemma {:induction false} NeededIff(days: seq<Day>, byDate: ByDate, c: Config, k: string)
    ensures k in Needed(days, byDate, c) <==> exists d, r :: d in days && Wanted(On(byDate, d), r, c) && r.key == k
  {
    hide NeededOn, Wanted;
    if days != [] {
      var n := |days| - 1;
      NeededIff(days[..n], byDate, c, k);
      NeededOnIff(On(byDate, days[n]), c, k);
      assert days == days[..n] + [days[n]];
    }
  }

  // ------------------------------------------------------------------------------- the series

  /** The places of the days that fired. */
  function Fired(cycles: seq<Cycle>): seq<nat> {
    if cycles == [] then [] else
    var n := |cycles| - 1;
    Fired(cycles[..n]) + if cycles[n].first.Some? then [n] else []
  }

  lemma {:induction false} FiredMeaning(cycles: seq<Cycle>)
    ensures forall i, j :: 0 <= i < j < |Fired(cycles)| ==> Fired(cycles)[i] < Fired(cycles)[j]
    ensures forall p: nat :: p in Fired(cycles) <==> p < |cycles| && cycles[p].first.Some?
  {
    if cycles != [] {
      var before := Fired(cycles[..|cycles| - 1]);
      FiredMeaning(cycles[..|cycles| - 1]);
      forall i | 0 <= i < |before| ensures before[i] < |cycles| - 1 {
        assert before[i] in before;
      }
    }
  }

  /** The three series of a window: one point each for every day that fired, in the days' order, with
      whether its first run was clean, when its work was done, and what its attempts came to. */
  lemma {:induction false} SeriesMeaning(cycles: seq<Cycle>, i: nat)
    ensures |FiredDays(cycles)| == |BufferPoints(cycles)| == |AttemptPoints(cycles)| == |Fired(cycles)|
    ensures i < |Fired(cycles)| ==>
      Fired(cycles)[i] < |cycles| &&
      PointsSay(cycles[Fired(cycles)[i]], FiredDays(cycles)[i], BufferPoints(cycles)[i], AttemptPoints(cycles)[i])
  {
    if cycles != [] {
      var n := |cycles| - 1;
      SeriesMeaning(cycles[..n], i);
      LastPoints(cycles);
      hide PointsSay, FiredDays, BufferPoints, AttemptPoints;
    }
  }

  predicate PointsSay(cell: Cycle, fired: (Day, bool), done: (Day, Option<Stamp>), point: AttemptPoint) {
    && cell.first.Some?
    && fired == (cell.date, cell.first.value.clean) && done == (cell.date, cell.first.value.stop)
    && point.date == cell.date && point.attempts == cell.attempts
    && point.attemptsToSuccess == cell.attemptsToSuccess && point.state == cell.state && point.cutover == cell.cutover
    && point.stage == cell.first.value.stage && point.depth == cell.first.value.depth
  }

  lemma {:induction false} LastPoints(cycles: seq<Cycle>)
    requires cycles != []
    ensures var n, f, b, a := |cycles| - 1, FiredDays(cycles), BufferPoints(cycles), AttemptPoints(cycles);
      if cycles[n].first.None?
      then f == FiredDays(cycles[..n]) && b == BufferPoints(cycles[..n]) && a == AttemptPoints(cycles[..n])
      else
        && f != [] && b != [] && a != []
        && f[..|f| - 1] == FiredDays(cycles[..n]) && b[..|b| - 1] == BufferPoints(cycles[..n])
        && a[..|a| - 1] == AttemptPoints(cycles[..n])
        && PointsSay(cycles[n], f[|f| - 1], b[|b| - 1], a[|a| - 1])
  {
  }
}
