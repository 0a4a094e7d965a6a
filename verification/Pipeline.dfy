/** `console/adapters/pipeline_reliability.py`: classifying a window of cycle days, and choosing
    beforehand which execution histories the classifier will read. */
module Pipeline {
  import opened Wrappers
  import Text

  /** An ISO date or stamp; the source compares them as strings, which is their order in time. */
  type Day = int
  type Stamp = int

  /** One execution. `key` is its ARN; `entered` is the states its history lists, once attached. */
  datatype Record = Record(
    key: string, role: Option<string>, status: string, error: string,
    start: Stamp, stop: Option<Stamp>, entered: Option<set<string>>)

  datatype Config = Config(
    cadence: set<string>, recovery: set<string>, degraded: set<string>, errors: set<string>,
    stages: seq<string>, gate: set<string>)

  // ------------------------------------------------------------------ one record's readings

  predicate Succeeds(r: Record) { Text.Lower(r.status) == "succeeded" }

  predicate EnteredAny(r: Record, names: set<string>) {
    names != {} && r.entered.Some? && names * r.entered.value != {}
  }

  predicate IsDegraded(r: Record, c: Config) {
    (r.error != "" && r.error in c.errors) || EnteredAny(r, c.degraded)
  }

  /** A cadence run the pipeline's own gate turned away. */
  predicate IsNoop(r: Record, c: Config) { Succeeds(r) && EnteredAny(r, c.gate) }

  predicate Clean(r: Record, c: Config) { Succeeds(r) && !IsDegraded(r, c) }

  predicate CadenceRole(r: Record, c: Config) { r.role.Some? && r.role.value in c.cadence }

  predicate AttemptRole(r: Record, c: Config) { r.role.Some? && r.role.value in c.cadence + c.recovery }

  predicate CadenceRun(r: Record, c: Config) { CadenceRole(r, c) && !IsNoop(r, c) }

  predicate Attempt(r: Record, c: Config) { AttemptRole(r, c) && !IsNoop(r, c) }

  predicate GateNoop(r: Record, c: Config) { CadenceRole(r, c) && IsNoop(r, c) }

  /** The deepest of the first `n` declared stages `seen` holds, with its 1-based depth. */
  function Deepest(stages: seq<string>, seen: set<string>, n: nat): (Option<string>, Option<nat>)
    requires n <= |stages|
  {
    if n == 0 then (None, Some(0))
    else if stages[n - 1] in seen then (Some(stages[n - 1]), Some(n))
    else Deepest(stages, seen, n - 1)
  }

  function StageOf(r: Record, stages: seq<string>): (Option<string>, Option<nat>) {
    if stages == [] || r.entered.None? || r.entered.value == {} then (None, None)
    else Deepest(stages, r.entered.value, |stages|)
  }

  method StageReached(r: Record, stages: seq<string>) returns (stage: Option<string>, depth: Option<nat>)
    ensures (stage, depth) == StageOf(r, stages)
  {
    if stages == [] || r.entered.None? || r.entered.value == {} {
      return None, None;
    }
    stage, depth := None, Some(0);
    for i := 0 to |stages|
      invariant (stage, depth) == Deepest(stages, r.entered.value, i)
    {
      if stages[i] in r.entered.value {
        stage, depth := Some(stages[i]), Some(i + 1);
      }
    }
  }

  // --------------------------------------------------------------------------- one day

  function Filter(rs: seq<Record>, p: Record -> bool): seq<Record> {
    if rs == [] then [] else (if p(rs[0]) then [rs[0]] else []) + Filter(rs[1..], p)
  }

  function FirstIndex(rs: seq<Record>, p: Record -> bool): (i: nat)
    ensures i <= |rs|
    ensures i < |rs| ==> p(rs[i])
    ensures forall j :: 0 <= j < i ==> !p(rs[j])
  {
    if rs == [] || p(rs[0]) then 0 else 1 + FirstIndex(rs[1..], p)
  }

  function CadenceToday(rs: seq<Record>, c: Config): seq<Record> { Filter(rs, r => CadenceRun(r, c)) }

  function AttemptsOn(rs: seq<Record>, c: Config): seq<Record> { Filter(rs, r => Attempt(r, c)) }

  function GateNoops(rs: seq<Record>, c: Config): seq<Record> { Filter(rs, r => GateNoop(r, c)) }

  /** A clean success that started after `first`, of whatever role. */
  predicate LaterSuccess(rs: seq<Record>, first: Record, c: Config) {
    exists i :: 0 <= i < |rs| && rs[i].start > first.start && Clean(rs[i], c)
  }

  predicate Recovers(r: Record, first: Record) { Succeeds(r) && r.start > first.start }

  datatype CycleState = Pending | NeverFired | Degraded | Succeeded | FailedRecovered | FailedUnrecovered

  datatype First = First(
    evidence: string, ok: bool, status: string, error: string, stage: Option<string>, depth: Option<nat>,
    clean: bool, stop: Option<Stamp>)

  /** One cycle day's cell, with the point each of the other series takes from it. */
  datatype Cycle = Cycle(
    date: Day, state: CycleState, executions: nat, cadenceRuns: nat, attempts: nat,
    attemptsToSuccess: Option<nat>, gateNoops: nat, cutover: Option<string>, first: Option<First>)

  /** 1-based place of the first attempt that reached a clean success. */
  function CleanPlace(attempts: seq<Record>, c: Config): Option<nat> {
    var i := FirstIndex(attempts, r => Clean(r, c));
    if i < |attempts| then Some(i + 1) else None
  }

  method AttemptsToSuccess(attempts: seq<Record>, c: Config) returns (place: Option<nat>)
    ensures place == CleanPlace(attempts, c)
  {
    for i := 0 to |attempts|
      invariant forall j :: 0 <= j < i ==> !Clean(attempts[j], c)
    {
      if Clean(attempts[i], c) {
        return Some(i + 1);
      }
    }
    place := None;
  }

  function FirstState(first: Record, later: bool, c: Config): CycleState {
    if IsDegraded(first, c) then Degraded
    else if Succeeds(first) then Succeeded
    else if later then FailedRecovered
    else FailedUnrecovered
  }

  /** When the first attempt's work was done: its own stop, or that of the first success after it. */
  function StopUsed(rs: seq<Record>, first: Record, later: bool): Option<Stamp> {
    var i := FirstIndex(rs, r => Recovers(r, first));
    if Succeeds(first) then first.stop
    else if later && i < |rs| then rs[i].stop
    else None
  }

  function FirstOf(rs: seq<Record>, first: Record, c: Config): First {
    var (stage, depth) := StageOf(first, c.stages);
    First(first.key, Succeeds(first), first.status, first.error, stage, depth, Succeeds(first) && !IsDegraded(first, c),
          StopUsed(rs, first, LaterSuccess(rs, first, c)))
  }

  function CycleOf(d: Day, rs: seq<Record>, c: Config, cutovers: map<Day, string>, today: Day): Cycle {
    var runs, attempts := CadenceToday(rs, c), AttemptsOn(rs, c);
    var fires := runs != [];
    Cycle(
      d,
      if !fires then (if d >= today then Pending else NeverFired)
      else FirstState(runs[0], LaterSuccess(rs, runs[0], c), c),
      |rs|, |runs|, |attempts|, CleanPlace(attempts, c), |GateNoops(rs, c)|,
      if d in cutovers then Some(cutovers[d]) else None,
      if fires then Some(FirstOf(rs, runs[0], c)) else None)
  }

  /** `next(...)` over the day's later successes: it raises when there is none. */
  method Next(rs: seq<Record>, first: Record) returns (i: nat)
    requires exists k :: 0 <= k < |rs| && Recovers(rs[k], first)
    ensures i < |rs| && i == FirstIndex(rs, r => Recovers(r, first))
  {
    i := 0;
    while !Recovers(rs[i], first)
      invariant i < |rs| && exists k :: i <= k < |rs| && Recovers(rs[k], first)
      invariant forall j :: 0 <= j < i ==> !Recovers(rs[j], first)
      decreases |rs| - i
    {
      i := i + 1;
    }
  }

  method ClassifyFirst(rs: seq<Record>, first: Record, c: Config) returns (state: CycleState, f: First)
    ensures state == FirstState(first, LaterSuccess(rs, first, c), c) && f == FirstOf(rs, first, c)
  {
    hide Succeeds, IsDegraded, FirstIndex;
    var firstOk, firstDegraded := Succeeds(first), IsDegraded(first, c);
    var later := LaterSuccess(rs, first, c);
    var stage, depth := StageReached(first, c.stages);
    if firstDegraded {
      state := Degraded;
    } else if firstOk {
      state := Succeeded;
    } else if later {
      state := FailedRecovered;
    } else {
      state := FailedUnrecovered;
    }
    var stop: Option<Stamp> := None;
    if firstOk {
      stop := first.stop;
    } else if later {
      var i := Next(rs, first);
      stop := rs[i].stop;
    }
    f := First(first.key, firstOk, first.status, first.error, stage, depth, firstOk && !firstDegraded, stop);
  }

  method ClassifyDay(d: Day, rs: seq<Record>, c: Config, cutovers: map<Day, string>, today: Day) returns (cycle: Cycle)
    ensures cycle == CycleOf(d, rs, c, cutovers, today)
  {
    hide CleanPlace, FirstState, FirstOf, Filter;
    var runs, attempts, noops := CadenceToday(rs, c), AttemptsOn(rs, c), GateNoops(rs, c);
    var place := AttemptsToSuccess(attempts, c);
    var state := if d >= today then Pending else NeverFired;
    var first: Option<First> := None;
    if runs != [] {
      var f;
      state, f := ClassifyFirst(rs, runs[0], c);
      first := Some(f);
    }
    cycle := Cycle(d, state, |rs|, |runs|, |attempts|, place, |noops|,
                   if d in cutovers then Some(cutovers[d]) else None, first);
  }

  // -------------------------------------------------------------------- the cycle days

  /** The days from `low` on, up to `today`, oldest first, on which the cadence expects a run. */
  ghost predicate ExpectedFrom(days: seq<Day>, low: Day, today: Day, expected: Day -> bool) {
    && (forall i, j :: 0 <= i < j < |days| ==> days[i] < days[j])
    && forall d :: d in days <==> low <= d <= today && expected(d)
  }

  lemma {:induction false} OneDayEarlier(days: seq<Day>, low: Day, today: Day, expected: Day -> bool)
    requires ExpectedFrom(days, low + 1, today, expected) && low <= today
    ensures ExpectedFrom(if expected(low) then [low] + days else days, low, today, expected)
  {
    var more := [low] + days;
    forall i, j | 0 <= i < j < |more| ensures more[i] < more[j] {
      assert more[j] == days[j - 1] && days[j - 1] in days;
      assert i > 0 ==> more[i] == days[i - 1];
    }
    forall d ensures d in more <==> d == low || d in days {
    }
  }

  /** The last `window` cycle days: every expected day back to `low`, where the walk stopped because
      the window was full, the next day is below the floor, or the lookback bound was reached. */
  method WindowCycleDays(today: Day, window: nat, expected: Day -> bool, floor: Option<Day>)
    returns (days: seq<Day>, ghost low: Day)
    ensures ExpectedFrom(days, low, today, expected) && |days| <= window
    ensures low <= today + 1 && (floor.Some? && low <= today ==> floor.value <= low)
    ensures |days| == window || low == today + 1 - (window * 10 + 10) || (floor.Some? && low - 1 < floor.value)
  {
    var cursor, scanned := today, 0;
    days := [];
    while |days| < window && scanned < window * 10 + 10 && !(floor.Some? && cursor < floor.value)
      invariant ExpectedFrom(days, cursor + 1, today, expected) && |days| <= window
      invariant 0 <= scanned <= window * 10 + 10 && cursor == today - scanned
      invariant floor.Some? && cursor < today ==> floor.value <= cursor + 1
      decreases window * 10 + 10 - scanned
    {
      OneDayEarlier(days, cursor, today, expected);
      if expected(cursor) {
        days := [cursor] + days;
      }
      cursor, scanned := cursor - 1, scanned + 1;
    }
    low := cursor + 1;
  }

  // ------------------------------------------------------------------------- the window

  type ByDate = map<Day, seq<Record>>

  function On(byDate: ByDate, d: Day): seq<Record> { if d in byDate then byDate[d] else [] }

  function Cycles(days: seq<Day>, byDate: ByDate, c: Config, cutovers: map<Day, string>, today: Day): seq<Cycle> {
    if days == [] then [] else
    var n := |days| - 1;
    Cycles(days[..n], byDate, c, cutovers, today) + [CycleOf(days[n], On(byDate, days[n]), c, cutovers, today)]
  }

  /** Whether each fired day's first attempt was clean. */
  function FiredDays(cycles: seq<Cycle>): seq<(Day, bool)> {
    if cycles == [] then [] else
    var last := cycles[|cycles| - 1];
    FiredDays(cycles[..|cycles| - 1]) + (if last.first.Some? then [(last.date, last.first.value.clean)] else [])
  }

  /** When each fired day's work was done; None is "unrecovered". */
  function BufferPoints(cycles: seq<Cycle>): seq<(Day, Option<Stamp>)> {
    if cycles == [] then [] else
    var last := cycles[|cycles| - 1];
    BufferPoints(cycles[..|cycles| - 1]) + (if last.first.Some? then [(last.date, last.first.value.stop)] else [])
  }

  /** What one fired day adds to the attempts series. */
  datatype AttemptPoint = AttemptPoint(
    date: Day, attempts: nat, attemptsToSuccess: Option<nat>, stage: Option<string>, depth: Option<nat>,
    cutover: Option<string>, state: CycleState)

  function AttemptPoints(cycles: seq<Cycle>): seq<AttemptPoint> {
    if cycles == [] then [] else
    var last := cycles[|cycles| - 1];
    AttemptPoints(cycles[..|cycles| - 1]) + (
      if last.first.None? then [] else
      [AttemptPoint(last.date, last.attempts, last.attemptsToSuccess, last.first.value.stage,
                    last.first.value.depth, last.cutover, last.state)])
  }

  method ClassifyWindow(days: seq<Day>, byDate: ByDate, c: Config, cutovers: map<Day, string>, today: Day)
    returns (cycles: seq<Cycle>, fired: seq<(Day, bool)>, buffers: seq<(Day, Option<Stamp>)>,
             attempts: seq<AttemptPoint>)
    ensures cycles == Cycles(days, byDate, c, cutovers, today)
    ensures fired == FiredDays(cycles) && buffers == BufferPoints(cycles) && attempts == AttemptPoints(cycles)
  {
    hide CycleOf;
    cycles, fired, buffers, attempts := [], [], [], [];
    for n := 0 to |days|
      invariant cycles == Cycles(days[..n], byDate, c, cutovers, today)
      invariant fired == FiredDays(cycles) && buffers == BufferPoints(cycles) && attempts == AttemptPoints(cycles)
    {
      assert days[..n + 1][..n] == days[..n];
      var cycle := ClassifyDay(days[n], On(byDate, days[n]), c, cutovers, today);
      assert (cycles + [cycle])[..|cycles|] == cycles;
      if cycle.first.Some? {
        fired := fired + [(cycle.date, cycle.first.value.clean)];
        buffers := buffers + [(cycle.date, cycle.first.value.stop)];
        attempts := attempts + [AttemptPoint(
          cycle.date, cycle.attempts, cycle.attemptsToSuccess, cycle.first.value.stage, cycle.first.value.depth,
          cycle.cutover, cycle.state)];
      }
      cycles := cycles + [cycle];
    }
    assert days[..|days|] == days;
  }

  // ------------------------------------------------------- which histories to read first

  /** The keys of the records not yet read that satisfy `p`. */
  function KeysWhere(rs: seq<Record>, p: Record -> bool): set<string> {
    set r | r in rs && r.entered.None? && p(r) :: r.key
  }

  predicate WantsDegraded(c: Config) { c.degraded != {} }

  predicate WantsFirst(c: Config) { c.stages != [] || c.degraded != {} }

  /** What one day's records contribute. */
  function NeededOn(rs: seq<Record>, c: Config): set<string> {
    var runs := CadenceToday(rs, c);
    (if c.gate != {} then KeysWhere(rs, r => CadenceRole(r, c)) else {})
    + (if runs != [] && WantsFirst(c) then KeysWhere(rs, r => r == runs[0]) else {})
    + (if WantsDegraded(c) then KeysWhere(rs, r => Attempt(r, c) && Succeeds(r)) else {})
    + (if WantsDegraded(c) && runs != [] then KeysWhere(rs, r => Recovers(r, runs[0])) else {})
  }

  function Needed(days: seq<Day>, byDate: ByDate, c: Config): set<string> {
    if days == [] then {} else
    var n := |days| - 1;
    Needed(days[..n], byDate, c) + NeededOn(On(byDate, days[n]), c)
  }

  ghost predicate Collected(need: seq<Record>, seen: set<string>) {
    && (forall i :: 0 <= i < |need| ==> need[i].entered.None? && need[i].key in seen)
    && (forall i, j :: 0 <= i < j < |need| ==> need[i].key != need[j].key)
    && forall k :: k in seen ==> exists i :: 0 <= i < |need| && need[i].key == k
  }

  /** `add` over the records that satisfy `p`: skip what is already read or already chosen. */
  method AddWhere(rs: seq<Record>, p: Record -> bool, need0: seq<Record>, seen0: set<string>)
    returns (need: seq<Record>, seen: set<string>)
    requires Collected(need0, seen0)
    ensures Collected(need, seen) && seen == seen0 + KeysWhere(rs, p)
  {
    need, seen := need0, seen0;
    for i := 0 to |rs|
      invariant Collected(need, seen) && seen == seen0 + KeysWhere(rs[..i], p)
    {
      assert rs[..i + 1] == rs[..i] + [rs[i]];
      assert KeysWhere(rs[..i + 1], p) ==
        KeysWhere(rs[..i], p) + if rs[i].entered.None? && p(rs[i]) then {rs[i].key} else {};
      if p(rs[i]) && rs[i].entered.None? && rs[i].key !in seen {
        CollectOneMore(need, seen, rs[i]);
        need, seen := need + [rs[i]], seen + {rs[i].key};
      }
    }
    assert rs[..|rs|] == rs;
  }

  lemma {:induction false} CollectOneMore(need: seq<Record>, seen: set<string>, r: Record)
    requires Collected(need, seen) && r.entered.None? && r.key !in seen
    ensures Collected(need + [r], seen + {r.key})
  {
    var now := need + [r];
    forall k | k in seen + {r.key} ensures exists i :: 0 <= i < |now| && now[i].key == k {
      if k in seen {
        var i :| 0 <= i < |need| && need[i].key == k;
        assert now[i].key == k;
      } else {
        assert now[|need|].key == k;
      }
    }
  }

  method AddDay(rs: seq<Record>, c: Config, need0: seq<Record>, seen0: set<string>)
    returns (need: seq<Record>, seen: set<string>)
    requires Collected(need0, seen0)
    ensures Collected(need, seen) && seen == seen0 + NeededOn(rs, c)
  {
    hide Collected, CadenceToday, KeysWhere, WantsFirst, WantsDegraded;
    need, seen := need0, seen0;
    var runs := CadenceToday(rs, c);
    if c.gate != {} {
      need, seen := AddWhere(rs, r => CadenceRole(r, c), need, seen);
    }
    if runs != [] && WantsFirst(c) {
      need, seen := AddWhere(rs, r => r == runs[0], need, seen);
    }
    if WantsDegraded(c) {
      need, seen := AddWhere(rs, r => Attempt(r, c) && Succeeds(r), need, seen);
      if runs != [] {
        need, seen := AddWhere(rs, r => Recovers(r, runs[0]), need, seen);
      }
    }
  }

  method RecordsNeedingHistory(days: seq<Day>, byDate: ByDate, c: Config) returns (need: seq<Record>)
    ensures Collected(need, Needed(days, byDate, c))
  {
    need := [];
    var seen: set<string> := {};
    if c.degraded == {} && c.stages == [] && c.gate == {} {
      NothingNeeded(days, byDate, c);
      return;
    }
    for n := 0 to |days|
      invariant Collected(need, seen) && seen == Needed(days[..n], byDate, c)
    {
      hide Collected, NeededOn;
      assert days[..n + 1][..n] == days[..n];
      need, seen := AddDay(On(byDate, days[n]), c, need, seen);
    }
    assert days[..|days|] == days;
  }

  lemma {:induction false} NothingNeeded(days: seq<Day>, byDate: ByDate, c: Config)
    requires c.degraded == {} && c.stages == [] && c.gate == {}
    ensures Needed(days, byDate, c) == {}
  {
    if days != [] {
      NothingNeeded(days[..|days| - 1], byDate, c);
    }
  }
}
