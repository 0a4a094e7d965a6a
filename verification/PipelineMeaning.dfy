/** What a cycle's cell says of its day (`console/adapters/pipeline_reliability.py:642-822`). */
module PipelineMeaning {
  import opened Wrappers
  import opened Pipeline
  import opened PipelineFetch
  import Text

  /** The stage reached is the deepest declared one the run entered; depth 0 is a run that entered
      none of them. */
  lemma {:induction false} DeepestMeaning(stages: seq<string>, seen: set<string>, n: nat)
    requires n <= |stages|
    ensures var (stage, depth) := Deepest(stages, seen, n);
      && depth.Some? && depth.value <= n
      && (forall i :: depth.value <= i < n ==> stages[i] !in seen)
      && (depth.value > 0 ==> stages[depth.value - 1] in seen && stage == Some(stages[depth.value - 1]))
      && (depth.value == 0 ==> stage == None)
  {
    if n > 0 && stages[n - 1] !in seen {
      DeepestMeaning(stages, seen, n - 1);
    }
  }

  predicate CleanAttempt(r: Record, c: Config) { Attempt(r, c) && Clean(r, c) }

  lemma {:induction false} FilterKeeps(rs: seq<Record>, p: Record -> bool, r: Record)
    ensures r in Filter(rs, p) <==> r in rs && p(r)
  {
    if rs != [] {
      FilterKeeps(rs[1..], p, r);
      assert rs == [rs[0]] + rs[1..];
    }
  }

  /** A place among the attempts is named exactly when some attempt of the day came out clean. */
  lemma {:induction false} CleanPlaceMeaning(rs: seq<Record>, c: Config)
    ensures CleanPlace(AttemptsOn(rs, c), c).Some? <==> exists r :: r in rs && CleanAttempt(r, c)
  {
    var attempts := AttemptsOn(rs, c);
    var i := FirstIndex(attempts, r => Clean(r, c));
    hide Clean, Attempt, FirstIndex;
    if i < |attempts| {
      FilterKeeps(rs, r => Attempt(r, c), attempts[i]);
      assert attempts[i] in rs && CleanAttempt(attempts[i], c);
    }
    if r :| r in rs && CleanAttempt(r, c) {
      FilterKeeps(rs, x => Attempt(x, c), r);
      var j :| 0 <= j < |attempts| && attempts[j] == r;
    }
  }

  /** A run that rescues the day without being an attempt at it: of a role outside the cycle's, or
      turned away by the gate. */
  predicate Outsider(r: Record, first: Record, c: Config) {
    r.start > first.start && Clean(r, c) && !Attempt(r, c)
  }

  /** A day reads recovered although no attempt at it succeeded exactly when its first run neither
      succeeded nor degraded, no attempt came out clean, and an outsider came out clean later. */
  lemma {:induction false} RecoveredWithoutAnAttempt(d: Day, rs: seq<Record>, c: Config,
                                                     cutovers: map<Day, string>, today: Day)
    ensures var cell := CycleOf(d, rs, c, cutovers, today);
      cell.state == FailedRecovered && cell.attemptsToSuccess == None <==>
        && CadenceToday(rs, c) != []
        && !Succeeds(CadenceToday(rs, c)[0]) && !IsDegraded(CadenceToday(rs, c)[0], c)
        && (forall r :: r in rs ==> !CleanAttempt(r, c))
        && exists r :: r in rs && Outsider(r, CadenceToday(rs, c)[0], c)
  {
    CleanPlaceMeaning(rs, c);
    if CadenceToday(rs, c) != [] {
      var first := CadenceToday(rs, c)[0];
      hide CadenceToday, AttemptsOn, CleanPlace, Clean, Attempt, FirstOf, GateNoops, Succeeds, IsDegraded;
      if LaterSuccess(rs, first, c) && forall r :: r in rs ==> !CleanAttempt(r, c) {
        var i :| 0 <= i < |rs| && rs[i].start > first.start && Clean(rs[i], c);
        assert rs[i] in rs && Outsider(rs[i], first, c);
      }
      if r :| r in rs && Outsider(r, first, c) {
        var i :| 0 <= i < |rs| && rs[i] == r;
        assert LaterSuccess(rs, first, c);
      }
    }
    hide CadenceToday, AttemptsOn, CleanPlace, Clean, Attempt, FirstOf, GateNoops, LaterSuccess, Outsider, CleanAttempt;
  }

  function Ran(key: string, role: string, status: string, error: string, start: Stamp, stop: Stamp): Record {
    Record(key, Some(role), status, error, start, Some(stop), None)
  }

  /** One scheduled run that failed, and a run of another role that succeeded after it. */
  const RESCUED_DAY := [Ran("a", "scheduled", "FAILED", "", 1, 2), Ran("b", "exercise", "SUCCEEDED", "", 3, 4)]

  const SCHEDULED_ONLY := Config({"scheduled"}, {"rerun"}, {}, {"Degraded"}, [], {})

  lemma {:induction false} Statuses()
    ensures Text.Lower("SUCCEEDED") == "succeeded" && Text.Lower("FAILED") != "succeeded"
  {
    assert |Text.Lower("FAILED")| == 6;
    var lower := Text.Lower("SUCCEEDED");
    assert lower[0] == 's' && lower[1] == 'u' && lower[2] == 'c' && lower[3] == 'c' && lower[4] == 'e';
    assert lower[5] == 'e' && lower[6] == 'd' && lower[7] == 'e' && lower[8] == 'd';
  }

  /** Such a day: recovered, with no attempt that succeeded. */
  lemma {:induction false} RescuedDayHasNoAttempt(d: Day, today: Day)
    ensures var cell := CycleOf(d, RESCUED_DAY, SCHEDULED_ONLY, map[], today);
      cell.state == FailedRecovered && cell.attemptsToSuccess == None
  {
    Statuses();
    var rs, c := RESCUED_DAY, SCHEDULED_ONLY;
    hide Text.Lower;
    var first, other := rs[0], rs[1];
    assert !Succeeds(first) && Succeeds(other) && !IsDegraded(first, c) && !IsDegraded(other, c);
    assert "scheduled"[0] == 's' && "exercise"[0] == 'e' && "rerun"[0] == 'r';
    assert CadenceRun(first, c) && !AttemptRole(other, c);
    FilterHead(rs, r => CadenceRun(r, c));
    assert FirstIndex(rs, r => CadenceRun(r, c)) == 0;
    hide Succeeds, IsDegraded, CadenceRun, AttemptRole, Filter, FirstIndex;
    assert other in rs && Outsider(other, first, c);
    RecoveredWithoutAnAttempt(d, rs, c, map[], today);
  }

  // -------------------------------------------------------------------- whose stop is used

  predicate EarliestRecovery(rs: seq<Record>, first: Record, i: nat) {
    i < |rs| && Recovers(rs[i], first) && forall j :: 0 <= j < i ==> !Recovers(rs[j], first)
  }

  predicate Rescues(r: Record, first: Record, c: Config) { r.start > first.start && Clean(r, c) }

  /** The earliest run of those that make the day a recovered one. */
  predicate EarliestRescue(rs: seq<Record>, first: Record, c: Config, k: nat) {
    k < |rs| && Rescues(rs[k], first, c) && forall j :: 0 <= j < k ==> !Rescues(rs[j], first, c)
  }

  /** A recovered day takes its stop from the earliest success after the first run, and there always
      is one. It is the run that made the day recovered exactly when it is not itself degraded. */
  lemma {:induction false} RecoveryIsAlwaysFound(rs: seq<Record>, first: Record, c: Config)
    requires !Succeeds(first) && LaterSuccess(rs, first, c)
    ensures exists i: nat, k: nat ::
      && EarliestRecovery(rs, first, i) && EarliestRescue(rs, first, c, k) && i <= k
      && StopUsed(rs, first, true) == rs[i].stop && (i == k <==> !IsDegraded(rs[i], c))
  {
    var x :| 0 <= x < |rs| && rs[x].start > first.start && Clean(rs[x], c);
    var k := FirstIndex(rs, r => Rescues(r, first, c));
    var i := FirstIndex(rs, r => Recovers(r, first));
    hide Succeeds, IsDegraded, FirstIndex;
    assert Rescues(rs[x], first, c) && k <= x;
    assert Recovers(rs[k], first) && i <= k;
    assert EarliestRescue(rs, first, c, k) && EarliestRecovery(rs, first, i);
    assert Rescues(rs[i], first, c) <==> !IsDegraded(rs[i], c);
  }

  /** A scheduled run that failed, a rerun that succeeded degraded, and a clean one. */
  const DEGRADED_FIRST := [Ran("a", "scheduled", "FAILED", "", 1, 2), Ran("b", "rerun", "SUCCEEDED", "Degraded", 3, 4),
                           Ran("c", "rerun", "SUCCEEDED", "", 5, 6)]

  /** Such a day is over, by its own account, when the degraded rerun stopped. */
  lemma {:induction false} DegradedRunGivesTheStop()
    ensures LaterSuccess(DEGRADED_FIRST, DEGRADED_FIRST[0], SCHEDULED_ONLY)
    ensures StopUsed(DEGRADED_FIRST, DEGRADED_FIRST[0], true) == Some(4)
    ensures IsDegraded(DEGRADED_FIRST[1], SCHEDULED_ONLY)
  {
    Statuses();
    var rs, c := DEGRADED_FIRST, SCHEDULED_ONLY;
    hide Text.Lower;
    assert !Succeeds(rs[0]) && Succeeds(rs[1]) && Succeeds(rs[2]);
    assert IsDegraded(rs[1], c) && Clean(rs[2], c);
    assert !Recovers(rs[0], rs[0]) && Recovers(rs[1], rs[0]);
    hide Succeeds, IsDegraded, Clean;
    assert FirstIndex(rs, r => Recovers(r, rs[0])) == 1;
  }

  /** What the streak and the success rate take from a cell: the first run counts as clean exactly
      when the cell reads SUCCEEDED, a day without a cadence run counts in neither, and of a day whose
      first run failed only a clean later success makes a recovered one. */
  lemma {:induction false} CellMeaning(d: Day, rs: seq<Record>, c: Config, cutovers: map<Day, string>, today: Day)
    ensures var cell := CycleOf(d, rs, c, cutovers, today);
      && (cell.first.None? <==> forall r :: r in rs ==> !CadenceRun(r, c))
      && (cell.first.None? ==> cell.state == if d >= today then Pending else NeverFired)
      && (cell.first.Some? ==> (cell.first.value.clean <==> cell.state == CycleState.Succeeded))
      && (cell.state == FailedRecovered || cell.state == FailedUnrecovered ==>
            (cell.state == FailedRecovered <==>
              exists r :: r in rs && r.start > CadenceToday(rs, c)[0].start && Clean(r, c)))
  {
    var runs := CadenceToday(rs, c);
    hide CleanPlace, AttemptsOn, GateNoops, Clean, Filter, CadenceRun, StopUsed, StageOf;
    if runs != [] {
      FilterKeeps(rs, r => CadenceRun(r, c), runs[0]);
      if r :| r in rs && r.start > runs[0].start && Clean(r, c) {
        var i :| 0 <= i < |rs| && rs[i] == r;
        assert LaterSuccess(rs, runs[0], c);
      }
    } else if r :| r in rs && CadenceRun(r, c) {
      FilterKeeps(rs, x => CadenceRun(x, c), r);
    }
  }
}
