/** Reading only the histories `_records_needing_history` selects against reading them all
    (`console/adapters/pipeline_reliability.py:409-484`): exactly when the classifier cannot tell. */
module PipelineFetch {
  import opened Wrappers
  import opened Pipeline

  /** What reading an execution's history would find; None where it has none or the read fails. */
  type Histories = string -> Option<set<string>>

  /** `attach` on the chosen records: a history already there is kept. */
  function Read(r: Record, chosen: set<string>, h: Histories): Record {
    if r.entered.None? && r.key in chosen then r.(entered := h(r.key)) else r
  }

  function Fetch(rs: seq<Record>, chosen: set<string>, h: Histories): (out: seq<Record>)
    ensures |out| == |rs|
  {
    seq(|rs|, i requires 0 <= i < |rs| => Read(rs[i], chosen, h))
  }

  function FetchAll(byDate: ByDate, chosen: set<string>, h: Histories): ByDate {
    map d | d in byDate :: Fetch(byDate[d], chosen, h)
  }

  function AllKeys(byDate: ByDate): set<string> {
    set d, r | d in byDate && r in byDate[d] :: r.key
  }

  /** A day's records in order of start, as `_group_by_date` leaves them. */
  ghost predicate Sorted(rs: seq<Record>) { forall i, j :: 0 <= i < j < |rs| ==> rs[i].start <= rs[j].start }

  /** No two executions share a key. */
  ghost predicate DistinctKeys(byDate: ByDate) {
    forall d, e, i, j | d in byDate && e in byDate && 0 <= i < |byDate[d]| && 0 <= j < |byDate[e]| ::
      byDate[d][i].key == byDate[e][j].key ==> d == e && i == j
  }

  // ------------------------------------------------------------- what selection overlooks

  /** A run nobody selects although the gate turned it away: a recovery-role success whose history
      was not read. */
  predicate Overlooked(r: Record, c: Config, h: Histories) {
    && AttemptRole(r, c) && !CadenceRole(r, c) && Succeeds(r) && r.entered.None?
    && EnteredAny(r.(entered := h(r.key)), c.gate)
  }

  /** The one configuration, and the one kind of run, selection misjudges. */
  ghost predicate Blind(days: seq<Day>, byDate: ByDate, c: Config, h: Histories) {
    && c.gate != {} && c.degraded == {}
    && exists n, r :: 0 <= n < |days| && r in On(byDate, days[n]) && Overlooked(r, c, h)
  }

  // -------------------------------------------------------------- two readings of one day

  /** Two readings of one record that the classifier counts alike. */
  predicate Twin(a: Record, b: Record, c: Config) {
    && a.(entered := None) == b.(entered := None)
    && (CadenceRole(a, c) ==> IsNoop(a, c) == IsNoop(b, c))
    && (AttemptRole(a, c) ==> IsNoop(a, c) == IsNoop(b, c) && (Succeeds(a) ==> IsDegraded(a, c) == IsDegraded(b, c)))
  }

  ghost predicate Twins(a: seq<Record>, b: seq<Record>, c: Config) {
    |a| == |b| && forall i :: 0 <= i < |a| ==> Twin(a[i], b[i], c)
  }

  ghost predicate Agree(a: seq<Record>, p: Record -> bool, b: seq<Record>, q: Record -> bool) {
    |a| == |b| && forall i :: 0 <= i < |a| ==> p(a[i]) == q(b[i])
  }

  lemma {:induction false} FilterTwins(a: seq<Record>, b: seq<Record>, p: Record -> bool, c: Config)
    requires Twins(a, b, c) && Agree(a, p, b, p)
    ensures Twins(Filter(a, p), Filter(b, p), c)
  {
    if a != [] {
      assert Twin(a[0], b[0], c) && p(a[0]) == p(b[0]);
      forall i | 0 <= i < |a| - 1 ensures Twin(a[1..][i], b[1..][i], c) && p(a[1..][i]) == p(b[1..][i]) {
        assert a[1..][i] == a[i + 1] && b[1..][i] == b[i + 1];
      }
      hide Twin;
      FilterTwins(a[1..], b[1..], p, c);
    }
  }

  lemma {:induction false} FilterHead(s: seq<Record>, p: Record -> bool)
    ensures Filter(s, p) != [] <==> FirstIndex(s, p) < |s|
    ensures Filter(s, p) != [] ==> Filter(s, p)[0] == s[FirstIndex(s, p)]
  {
    if s != [] && !p(s[0]) {
      FilterHead(s[1..], p);
      var i := FirstIndex(s[1..], p);
      assert FirstIndex(s, p) == i + 1 && Filter(s, p) == Filter(s[1..], p);
      assert i < |s| - 1 ==> s[1..][i] == s[i + 1];
    } else if s != [] {
      assert Filter(s, p)[0] == s[0];
    }
  }

  lemma {:induction false} FilterHolds(s: seq<Record>, p: Record -> bool)
    ensures forall x :: x in Filter(s, p) ==> p(x)
  {
    if s != [] {
      FilterHolds(s[1..], p);
    }
  }

  lemma {:induction false} FilterShrinks(a: seq<Record>, b: seq<Record>, p: Record -> bool, k: nat)
    requires |a| == |b| && forall i :: 0 <= i < |a| ==> p(b[i]) ==> p(a[i])
    ensures |Filter(b, p)| <= |Filter(a, p)|
    ensures k < |a| && p(a[k]) && !p(b[k]) ==> |Filter(b, p)| < |Filter(a, p)|
  {
    if a != [] {
      forall i | 0 <= i < |a| - 1 ensures p(b[1..][i]) ==> p(a[1..][i]) {
        assert a[1..][i] == a[i + 1] && b[1..][i] == b[i + 1];
      }
      FilterShrinks(a[1..], b[1..], p, if k == 0 then 0 else k - 1);
    }
  }

  lemma {:induction false} SameFirstIndex(a: seq<Record>, p: Record -> bool, b: seq<Record>, q: Record -> bool)
    requires Agree(a, p, b, q)
    ensures FirstIndex(a, p) == FirstIndex(b, q)
  {
    var i, j := FirstIndex(a, p), FirstIndex(b, q);
    assert i < |a| ==> p(a[i]) && q(b[i]);
    assert j < |b| ==> q(b[j]) && p(a[j]);
  }

  // ------------------------------------------------------------------------ equal days

  /** `sel` holds what the day needs, `all` every key of the day, and the day hides no overlooked run. */
  ghost predicate Enough(rs: seq<Record>, c: Config, sel: set<string>, all: set<string>, h: Histories) {
    && Sorted(rs) && NeededOn(rs, c) <= sel && (forall r :: r in rs ==> r.key in all)
    && (c.gate == {} || c.degraded != {} || forall r :: r in rs ==> !Overlooked(r, c, h))
  }

  lemma {:induction false} Chosen(rs: seq<Record>, c: Config, r: Record)
    requires r in rs && r.entered.None?
    ensures c.gate != {} && CadenceRole(r, c) ==> r.key in NeededOn(rs, c)
    ensures WantsDegraded(c) && AttemptRole(r, c) && Succeeds(r) ==> r.key in NeededOn(rs, c)
    ensures WantsFirst(c) && CadenceToday(rs, c) != [] && r == CadenceToday(rs, c)[0] ==> r.key in NeededOn(rs, c)
    ensures WantsDegraded(c) && CadenceToday(rs, c) != [] && Recovers(r, CadenceToday(rs, c)[0]) ==>
      r.key in NeededOn(rs, c)
  {
    hide CadenceToday, WantsFirst, WantsDegraded, Recovers, CadenceRole, AttemptRole, Succeeds;
  }

  lemma {:induction false} ReadTwins(rs: seq<Record>, c: Config, sel: set<string>, all: set<string>, h: Histories,
        r: Record)
    requires Enough(rs, c, sel, all, h) && r in rs
    ensures Twin(Read(r, sel, h), Read(r, all, h), c)
  {
    if r.entered.None? && r.key !in sel {
      Chosen(rs, c, r);
      hide NeededOn, Succeeds;
    }
  }

  lemma {:induction false} FetchTwins(rs: seq<Record>, c: Config, sel: set<string>, all: set<string>, h: Histories)
    requires Enough(rs, c, sel, all, h)
    ensures Twins(Fetch(rs, sel, h), Fetch(rs, all, h), c)
  {
    hide Enough, Twin;
    forall i | 0 <= i < |rs| ensures Twin(Fetch(rs, sel, h)[i], Fetch(rs, all, h)[i], c) {
      ReadTwins(rs, c, sel, all, h, rs[i]);
    }
  }

  lemma {:induction false} TwinsCount(a: Record, b: Record, c: Config)
    requires Twin(a, b, c)
    ensures CadenceRun(a, c) == CadenceRun(b, c)
    ensures Attempt(a, c) == Attempt(b, c)
    ensures GateNoop(a, c) == GateNoop(b, c)
    ensures Attempt(a, c) ==> Clean(a, c) == Clean(b, c)
    ensures a.start == b.start && Succeeds(a) == Succeeds(b)
  {
    hide EnteredAny;
  }

  /** Twin days count alike: the same runs, attempts, gate-outs and place of the first success. */
  lemma {:induction false} TwinsCountAlike(a: seq<Record>, b: seq<Record>, c: Config)
    requires Twins(a, b, c)
    ensures |CadenceToday(a, c)| == |CadenceToday(b, c)|
    ensures |GateNoops(a, c)| == |GateNoops(b, c)|
    ensures |AttemptsOn(a, c)| == |AttemptsOn(b, c)|
    ensures CleanPlace(AttemptsOn(a, c), c) == CleanPlace(AttemptsOn(b, c), c)
    ensures FirstIndex(a, r => CadenceRun(r, c)) == FirstIndex(b, r => CadenceRun(r, c))
  {
    forall i | 0 <= i < |a|
      ensures CadenceRun(a[i], c) == CadenceRun(b[i], c) && Attempt(a[i], c) == Attempt(b[i], c)
      ensures GateNoop(a[i], c) == GateNoop(b[i], c)
    {
      TwinsCount(a[i], b[i], c);
    }
    hide CadenceRun, Attempt, GateNoop, Clean;
    FilterTwins(a, b, r => CadenceRun(r, c), c);
    FilterTwins(a, b, r => GateNoop(r, c), c);
    FilterTwins(a, b, r => Attempt(r, c), c);
    SameFirstIndex(a, r => CadenceRun(r, c), b, r => CadenceRun(r, c));
    SameCleanPlace(AttemptsOn(a, c), AttemptsOn(b, c), c) by {
      FilterHolds(a, r => Attempt(r, c));
    }
  }

  lemma {:induction false} SameCleanPlace(a: seq<Record>, b: seq<Record>, c: Config)
    requires Twins(a, b, c) && forall x :: x in a ==> Attempt(x, c)
    ensures CleanPlace(a, c) == CleanPlace(b, c)
  {
    forall i | 0 <= i < |a| ensures Clean(a[i], c) == Clean(b[i], c) {
      assert a[i] in a;
      TwinsCount(a[i], b[i], c);
    }
    hide Clean, Attempt;
    SameFirstIndex(a, r => Clean(r, c), b, r => Clean(r, c));
  }

  lemma {:induction false} ReadKeepsNoop(r: Record, chosen: set<string>, h: Histories, c: Config)
    requires IsNoop(r, c)
    ensures Read(r, chosen, h) == r
  {
  }

  /** The first run found after reading is no earlier than the one found before, and the same one
      when no gate is declared. */
  lemma {:induction false} FirstMovesLater(rs: seq<Record>, c: Config, chosen: set<string>, h: Histories)
    requires FirstIndex(Fetch(rs, chosen, h), r => CadenceRun(r, c)) < |rs|
    ensures var i, j := FirstIndex(Fetch(rs, chosen, h), r => CadenceRun(r, c)), FirstIndex(rs, r => CadenceRun(r, c));
      && j <= i && CadenceToday(rs, c) != [] && CadenceToday(rs, c)[0] == rs[j]
      && CadenceRole(rs[i], c) && (c.gate == {} ==> i == j)
  {
    var a := Fetch(rs, chosen, h);
    var i, j := FirstIndex(a, r => CadenceRun(r, c)), FirstIndex(rs, r => CadenceRun(r, c));
    assert a[i] == Read(rs[i], chosen, h) && CadenceRun(a[i], c);
    if IsNoop(rs[i], c) {
      ReadKeepsNoop(rs[i], chosen, h, c);
    }
    assert CadenceRun(rs[i], c);
    FilterHead(rs, r => CadenceRun(r, c));
    assert a[j] == Read(rs[j], chosen, h);
    assert c.gate == {} ==> CadenceRun(a[j], c);
  }

  lemma {:induction false} FirstIsRead(rs: seq<Record>, c: Config, sel: set<string>, all: set<string>, h: Histories,
        i: nat)
    requires Enough(rs, c, sel, all, h)
    requires i == FirstIndex(Fetch(rs, sel, h), r => CadenceRun(r, c)) < |rs|
    ensures Read(rs[i], sel, h) == Read(rs[i], all, h) || (c.stages == [] && c.degraded == {})
  {
    FirstMovesLater(rs, c, sel, h);
    if rs[i].entered.None? {
      Chosen(rs, c, rs[i]);
      hide NeededOn, FirstIndex, CadenceToday, CadenceRole;
      assert rs[i] in rs;
    }
  }

  lemma {:induction false} LaterIsRead(rs: seq<Record>, c: Config, sel: set<string>, all: set<string>, h: Histories,
        i: nat, k: nat)
    requires Enough(rs, c, sel, all, h) && k < |rs|
    requires i == FirstIndex(Fetch(rs, sel, h), r => CadenceRun(r, c)) < |rs|
    requires rs[k].start > rs[i].start
    ensures Clean(Read(rs[k], sel, h), c) == Clean(Read(rs[k], all, h), c)
  {
    FirstMovesLater(rs, c, sel, h);
    var j := FirstIndex(rs, r => CadenceRun(r, c));
    assert rs[j].start <= rs[i].start;
    assert Succeeds(rs[k]) ==> Recovers(rs[k], rs[j]);
    if rs[k].entered.None? {
      assert rs[k] in rs;
      Chosen(rs, c, rs[k]);
      hide NeededOn, FirstIndex, CadenceToday, CadenceRole, Succeeds;
    }
  }

  lemma {:induction false} LaterSuccessAgrees(
    rs: seq<Record>, c: Config, sel: set<string>, all: set<string>, h: Histories, i: nat)
    requires Enough(rs, c, sel, all, h)
    requires i == FirstIndex(Fetch(rs, sel, h), r => CadenceRun(r, c)) < |rs|
    ensures LaterSuccess(Fetch(rs, sel, h), Read(rs[i], sel, h), c) ==
      LaterSuccess(Fetch(rs, all, h), Read(rs[i], all, h), c)
  {
    var a, b := Fetch(rs, sel, h), Fetch(rs, all, h);
    var first, other := Read(rs[i], sel, h), Read(rs[i], all, h);
    assert first.start == rs[i].start == other.start;
    forall k | 0 <= k < |rs|
      ensures a[k].start > first.start && Clean(a[k], c) <==> b[k].start > other.start && Clean(b[k], c)
    {
      if rs[k].start > rs[i].start {
        LaterIsRead(rs, c, sel, all, h, i, k);
      }
    }
    hide Clean, Read, Enough, FirstIndex;
  }

  lemma {:induction false} StopAgrees(rs: seq<Record>, sel: set<string>, all: set<string>, h: Histories, r: Record,
        later: bool)
    ensures StopUsed(Fetch(rs, sel, h), Read(r, sel, h), later) == StopUsed(Fetch(rs, all, h), Read(r, all, h), later)
  {
    var a, b := Fetch(rs, sel, h), Fetch(rs, all, h);
    var first, other := Read(r, sel, h), Read(r, all, h);
    forall i | 0 <= i < |rs| ensures Recovers(a[i], first) == Recovers(b[i], other) {
      assert a[i] == Read(rs[i], sel, h) && b[i] == Read(rs[i], all, h);
    }
    assert Succeeds(first) == Succeeds(other);
    hide Recovers, Succeeds;
    SameFirstIndex(a, r => Recovers(r, first), b, r => Recovers(r, other));
    var k := FirstIndex(a, r => Recovers(r, first));
    assert k < |rs| ==> a[k] == Read(rs[k], sel, h) && b[k] == Read(rs[k], all, h);
  }

  lemma {:induction false} FirstAgrees(rs: seq<Record>, c: Config, sel: set<string>, all: set<string>, h: Histories,
        i: nat)
    requires Enough(rs, c, sel, all, h)
    requires i == FirstIndex(Fetch(rs, sel, h), r => CadenceRun(r, c)) < |rs|
    ensures FirstOf(Fetch(rs, sel, h), Read(rs[i], sel, h), c) == FirstOf(Fetch(rs, all, h), Read(rs[i], all, h), c)
    ensures IsDegraded(Read(rs[i], sel, h), c) == IsDegraded(Read(rs[i], all, h), c)
  {
    var first, other := Read(rs[i], sel, h), Read(rs[i], all, h);
    FirstIsRead(rs, c, sel, all, h, i);
    LaterSuccessAgrees(rs, c, sel, all, h, i);
    StopAgrees(rs, sel, all, h, rs[i], LaterSuccess(Fetch(rs, sel, h), first, c));
    assert first.(entered := None) == other.(entered := None);
    hide LaterSuccess, StopUsed, Fetch, Enough, FirstIndex, Read;
  }

  /** The day's cell is the one reading every history would give. */
  lemma {:induction false} DayAgrees(d: Day, rs: seq<Record>, c: Config, cutovers: map<Day, string>, today: Day,
                                     sel: set<string>, all: set<string>, h: Histories)
    requires Enough(rs, c, sel, all, h)
    ensures CycleOf(d, Fetch(rs, sel, h), c, cutovers, today) == CycleOf(d, Fetch(rs, all, h), c, cutovers, today)
  {
    var a, b := Fetch(rs, sel, h), Fetch(rs, all, h);
    FetchTwins(rs, c, sel, all, h);
    TwinsCountAlike(a, b, c);
    var i := FirstIndex(a, r => CadenceRun(r, c));
    FilterHead(a, r => CadenceRun(r, c));
    FilterHead(b, r => CadenceRun(r, c));
    if i < |rs| {
      FirstAgrees(rs, c, sel, all, h, i);
      LaterSuccessAgrees(rs, c, sel, all, h, i);
      assert Succeeds(Read(rs[i], sel, h)) == Succeeds(Read(rs[i], all, h));
    }
    hide Enough, FirstOf, LaterSuccess, IsDegraded, Succeeds, Read, CleanPlace, CadenceRun, Filter, FirstIndex,
          AttemptsOn, GateNoops, Twins;
  }

  // ----------------------------------------------------------------------- the whole window

  lemma {:induction false} NeededIncludes(days: seq<Day>, byDate: ByDate, c: Config, n: nat)
    requires n < |days|
    ensures NeededOn(On(byDate, days[n]), c) <= Needed(days, byDate, c)
  {
    hide NeededOn;
    if n < |days| - 1 {
      NeededIncludes(days[..|days| - 1], byDate, c, n);
    }
  }

  lemma {:induction false} CyclesAt(days: seq<Day>, byDate: ByDate, c: Config, cutovers: map<Day, string>,
        today: Day, n: nat)
    ensures |Cycles(days, byDate, c, cutovers, today)| == |days|
    ensures n < |days| ==>
      Cycles(days, byDate, c, cutovers, today)[n] == CycleOf(days[n], On(byDate, days[n]), c, cutovers, today)
  {
    hide CycleOf;
    if days != [] {
      CyclesAt(days[..|days| - 1], byDate, c, cutovers, today, n);
    }
  }

  lemma {:induction false} FetchOn(byDate: ByDate, chosen: set<string>, h: Histories, d: Day)
    ensures On(FetchAll(byDate, chosen, h), d) == Fetch(On(byDate, d), chosen, h)
  {
  }

  ghost predicate Window(byDate: ByDate) {
    (forall d :: d in byDate ==> Sorted(byDate[d])) && DistinctKeys(byDate)
  }

  /** Whether the classifier says the same of a window read selectively and of one read whole. */
  ghost predicate SameVerdict(days: seq<Day>, byDate: ByDate, c: Config, cutovers: map<Day, string>, today: Day,
        h: Histories) {
    Cycles(days, FetchAll(byDate, Needed(days, byDate, c), h), c, cutovers, today)
    == Cycles(days, FetchAll(byDate, AllKeys(byDate), h), c, cutovers, today)
  }

  lemma {:induction false} EnoughOn(days: seq<Day>, byDate: ByDate, c: Config, h: Histories, n: nat)
    requires Window(byDate) && !Blind(days, byDate, c, h) && n < |days|
    ensures Enough(On(byDate, days[n]), c, Needed(days, byDate, c), AllKeys(byDate), h)
  {
    NeededIncludes(days, byDate, c, n);
    hide Needed, NeededOn, Overlooked, DistinctKeys, Sorted;
    assert On(byDate, days[n]) == [] ==> Sorted(On(byDate, days[n])) by {
      SortedEmpty();
    }
  }

  lemma {:induction false} SortedEmpty()
    ensures Sorted([])
  {
  }

  lemma {:induction false} SelectionIsEnough(
    days: seq<Day>, byDate: ByDate, c: Config, cutovers: map<Day, string>, today: Day, h: Histories)
    requires Window(byDate) && !Blind(days, byDate, c, h)
    ensures SameVerdict(days, byDate, c, cutovers, today, h)
  {
    var sel, all := Needed(days, byDate, c), AllKeys(byDate);
    var some, whole := FetchAll(byDate, sel, h), FetchAll(byDate, all, h);
    hide Window, Blind, Needed, AllKeys, Cycles, Enough, CycleOf, FetchAll, On, Fetch;
    CyclesAt(days, some, c, cutovers, today, 0);
    CyclesAt(days, whole, c, cutovers, today, 0);
    forall n: nat | n < |days|
      ensures Cycles(days, some, c, cutovers, today)[n] == Cycles(days, whole, c, cutovers, today)[n]
    {
      CyclesAt(days, some, c, cutovers, today, n);
      CyclesAt(days, whole, c, cutovers, today, n);
      EnoughOn(days, byDate, c, h, n);
      FetchOn(byDate, sel, h, days[n]);
      FetchOn(byDate, all, h, days[n]);
      DayAgrees(days[n], On(byDate, days[n]), c, cutovers, today, sel, all, h);
    }
  }

  // ----------------------------------------------------------- and where it is not enough

  /** With no degraded state declared, only cadence runs are ever selected. */
  lemma {:induction false} OnlyCadenceIsNeeded(rs: seq<Record>, c: Config, k: string)
    requires c.degraded == {} && k in NeededOn(rs, c)
    ensures exists r :: r in rs && r.key == k && CadenceRole(r, c)
  {
    FilterHolds(rs, r => CadenceRun(r, c));
    hide Filter, IsNoop;
    var runs := CadenceToday(rs, c);
    assert runs != [] ==> runs[0] in runs && CadenceRun(runs[0], c);
  }

  lemma {:induction false} OnlyCadenceIsNeededAtAll(days: seq<Day>, byDate: ByDate, c: Config, k: string)
    requires c.degraded == {} && k in Needed(days, byDate, c)
    ensures exists d, r :: d in byDate && r in byDate[d] && r.key == k && CadenceRole(r, c)
  {
    hide NeededOn, CadenceRole;
    if days != [] {
      var n := |days| - 1;
      if k in NeededOn(On(byDate, days[n]), c) {
        OnlyCadenceIsNeeded(On(byDate, days[n]), c, k);
      } else {
        OnlyCadenceIsNeededAtAll(days[..n], byDate, c, k);
      }
    }
  }

  lemma {:induction false} OverlookedIsNotNeeded(days: seq<Day>, byDate: ByDate, c: Config, h: Histories, d: Day,
        r: Record)
    requires DistinctKeys(byDate) && c.degraded == {} && d in byDate && r in byDate[d] && Overlooked(r, c, h)
    ensures r.key !in Needed(days, byDate, c)
  {
    hide Needed, AttemptRole, CadenceRole, EnteredAny;
    var i :| 0 <= i < |byDate[d]| && byDate[d][i] == r;
    forall e, q | e in byDate && q in byDate[e] && q.key == r.key ensures q == r {
      var j :| 0 <= j < |byDate[e]| && byDate[e][j] == q;
    }
    if r.key in Needed(days, byDate, c) {
      OnlyCadenceIsNeededAtAll(days, byDate, c, r.key);
    }
  }

  lemma {:induction false} MoreReadFewerAttempts(r: Record, sel: set<string>, all: set<string>, h: Histories, c: Config)
    requires r.key in all
    ensures Attempt(Read(r, all, h), c) ==> Attempt(Read(r, sel, h), c)
    ensures Overlooked(r, c, h) && r.key !in sel ==> Attempt(Read(r, sel, h), c) && !Attempt(Read(r, all, h), c)
  {
    assert Succeeds(Read(r, all, h)) == Succeeds(r) == Succeeds(Read(r, sel, h));
  }

  lemma {:induction false} OverlookedShows(rs: seq<Record>, c: Config, sel: set<string>, all: set<string>,
        h: Histories, r: Record)
    requires r in rs && Overlooked(r, c, h) && r.key !in sel && forall x :: x in rs ==> x.key in all
    ensures |AttemptsOn(Fetch(rs, sel, h), c)| > |AttemptsOn(Fetch(rs, all, h), c)|
  {
    var a, b := Fetch(rs, sel, h), Fetch(rs, all, h);
    forall i | 0 <= i < |rs| ensures Attempt(b[i], c) ==> Attempt(a[i], c) {
      assert rs[i] in rs;
      MoreReadFewerAttempts(rs[i], sel, all, h, c);
    }
    MoreReadFewerAttempts(r, sel, all, h, c);
    hide Attempt, Overlooked, Read;
    var k :| 0 <= k < |rs| && rs[k] == r;
    FilterShrinks(a, b, x => Attempt(x, c), k);
  }

  lemma {:induction false} BlindShows(
    days: seq<Day>, byDate: ByDate, c: Config, cutovers: map<Day, string>, today: Day, h: Histories)
    requires Window(byDate) && Blind(days, byDate, c, h)
    ensures !SameVerdict(days, byDate, c, cutovers, today, h)
  {
    var n, r :| 0 <= n < |days| && r in On(byDate, days[n]) && Overlooked(r, c, h);
    var sel, all := Needed(days, byDate, c), AllKeys(byDate);
    OverlookedIsNotNeeded(days, byDate, c, h, days[n], r);
    assert forall x :: x in On(byDate, days[n]) ==> x.key in all;
    hide Window, Blind, Needed, AllKeys, Overlooked, Cycles, Fetch;
    OverlookedShows(On(byDate, days[n]), c, sel, all, h, r);
    FetchOn(byDate, sel, h, days[n]);
    FetchOn(byDate, all, h, days[n]);
    CyclesAt(days, FetchAll(byDate, sel, h), c, cutovers, today, n);
    CyclesAt(days, FetchAll(byDate, all, h), c, cutovers, today, n);
    hide FetchAll, On, AttemptsOn;
  }

  /** Fetching only the selected histories gives the classifier's whole output exactly as fetching
      every history would, if and only if the window is not blind: a declared gate, no declared
      degraded state, and a recovery-role run the gate turned away. */
  lemma {:induction false} SelectionIsEnoughIff(
    days: seq<Day>, byDate: ByDate, c: Config, cutovers: map<Day, string>, today: Day, h: Histories)
    requires Window(byDate)
    ensures SameVerdict(days, byDate, c, cutovers, today, h) <==> !Blind(days, byDate, c, h)
  {
    if Blind(days, byDate, c, h) {
      BlindShows(days, byDate, c, cutovers, today, h);
    } else {
      SelectionIsEnough(days, byDate, c, cutovers, today, h);
    }
  }
}
