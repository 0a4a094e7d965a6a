/** `console/index/build.py`: the supervisor that rebuilds the index on a fixed grid, and what the
    index it serves says about itself. Time is in ticks of the monotonic clock. */
module Supervision {
  import opened Wrappers

  type Stamp = string

  datatype BuildInfo = BuildInfo(
    builtAt: Stamp, buildTicks: Option<int>, staleSince: Option<Stamp>, lastError: Option<string>,
    bootstrap: bool, warmStartFrom: Option<Stamp>)

  /** An index as served: its content, 0 being the empty one, and what it says of its build. */
  datatype Served = Served(content: nat, info: BuildInfo)

  /** One run of the builder: how long it takes, and what it gives or why it fails. */
  datatype Outcome = Outcome(ticks: nat, result: Result<nat, string>)

  function MarkStale(s: Served, now: Stamp, error: string): Served {
    s.(info := s.info.(staleSince := Some(now), lastError := Some(error)))
  }

  function Stamped(content: nat, now: Stamp, ticks: int): Served {
    Served(content, BuildInfo(now, Some(ticks), None, None, false, None))
  }

  function BlankStale(now: Stamp, error: string, bootstrap: bool): Served {
    MarkStale(Served(0, BuildInfo(now, None, None, None, bootstrap, None)), now, error)
  }

  /** What the surface shows after some builds: the last one that succeeded, or what it came up with. */
  function LastGood(seed: nat, builds: seq<Outcome>): nat {
    if builds == [] then seed else
    var last := builds[|builds| - 1];
    if last.result.Ok? then last.result.value else LastGood(seed, builds[..|builds| - 1])
  }

  /** The builds a run of the loop makes. */
  function BuildsOf(builtOnce: bool, first: Outcome, passes: seq<Pass>): seq<Outcome> {
    (if builtOnce then [] else [first]) + seq(|passes|, i requires 0 <= i < |passes| => passes[i].outcome)
  }

  lemma {:induction false} OneMoreBuild(seed: nat, builtOnce: bool, first: Outcome, passes: seq<Pass>, n: nat)
    requires n < |passes|
    ensures var builds, o := BuildsOf(builtOnce, first, passes[..n]), passes[n].outcome;
      && BuildsOf(builtOnce, first, passes[..n + 1]) == builds + [o]
      && LastGood(seed, builds + [o]) == LastGood(LastGood(seed, builds), [o])
      && forall info :: SaysSo(info, [o]) ==> SaysSo(info, builds + [o])
  {
    var builds, o := BuildsOf(builtOnce, first, passes[..n]), passes[n].outcome;
    assert (builds + [o])[..|builds|] == builds && (builds + [o])[|builds|] == o;
    assert [o][..0] == [];
  }

  /** The surface says it is not up to date exactly when the last build failed. */
  predicate SaysSo(info: BuildInfo, builds: seq<Outcome>) {
    builds != [] ==>
      var result := builds[|builds| - 1].result;
      && (info.staleSince.Some? <==> result.Err?) && (info.lastError.Some? <==> result.Err?)
      && (result.Err? ==> info.lastError == Some(result.error))
  }

  predicate StampedAs(info: BuildInfo, at: Stamp, ticks: Option<int>) { info.builtAt == at && info.buildTicks == ticks }

  /** Both speak of one build. */
  predicate StampedAlike(a: BuildInfo, b: BuildInfo) { a.builtAt == b.builtAt && a.buildTicks == b.buildTicks }

  const NOT_BUILT := "first index build has not completed yet"

  /** The last good index from before a restart, marked as such. */
  function WarmSeed(s: Served, now: Stamp): Served {
    MarkStale(s.(info := s.info.(bootstrap := true, warmStartFrom := Some(s.info.builtAt))), now,
              NOT_BUILT + "; showing the index built " + s.info.builtAt + ", from before the restart")
  }

  /** A failure ends the bootstrap window: "has not finished" becomes "failed". */
  function Failed(s: Served, now: Stamp, error: string): Served {
    var marked := MarkStale(s, now, error);
    marked.(info := marked.info.(bootstrap := false, warmStartFrom := None))
  }

  // ---------------------------------------------------------------------------- the grid

  /** The boundary after `next`: one period on, or as many as it takes to be ahead of `now`. */
  function NextBoundary(next: int, now: int, period: int): int
    requires period > 0
  {
    if next + period <= now then next + period + ((now - (next + period)) / period + 1) * period else next + period
  }

  /** `b` is the first point of the grid strictly after `now`. */
  predicate FirstAfter(b: int, now: int, period: int) { b - period <= now < b }

  predicate OnGrid(b: int, anchor: int, period: int, k: int) { b == anchor + k * period }

  lemma {:induction false} Quotient(x: int, period: int)
    requires period > 0
    ensures (x / period) * period <= x < (x / period + 1) * period
    ensures (x / period + 1) * period == (x / period) * period + period
  {
  }

  lemma {:induction false} StepsAdd(k: int, m: int, period: int)
    ensures (k + m) * period == k * period + m * period
  {
  }

  /** Skipping forward stays on the grid, always moves, and never leaves a boundary behind. */
  lemma {:induction false} NextBoundaryMeaning(anchor: int, k: int, next: int, now: int, period: int) returns (l: int)
    requires period > 0 && OnGrid(next, anchor, period, k) && next <= now
    ensures OnGrid(NextBoundary(next, now, period), anchor, period, l) && l > k
    ensures FirstAfter(NextBoundary(next, now, period), now, period) && NextBoundary(next, now, period) > next
  {
    if next + period <= now {
      var missed := (now - (next + period)) / period + 1;
      Quotient(now - (next + period), period);
      l := k + 1 + missed;
      StepsAdd(k + 1, missed, period);
      assert missed >= 1 by {
        Quotients(now - (next + period), period);
      }
    } else {
      l := k + 1;
    }
    StepsAdd(k, 1, period);
  }

  lemma {:induction false} Quotients(x: int, period: int)
    requires period > 0 && x >= 0
    ensures x / period >= 0
  {
  }

  /** One pass of the loop: which boundary it was for, when it began and when it ended. */
  datatype Beat = Beat(boundary: int, steps: int, start: int, end: int)

  /** What the wait before one build comes to, and the build itself. */
  datatype Pass = Pass(oversleep: nat, outcome: Outcome, now: Stamp)

  /** Every boundary is on the grid, in order, and the first one after the build before it ended;
      every build starts as soon after its boundary as the wait lets it. */
  ghost predicate Paced(beats: seq<Beat>, passes: seq<Pass>, anchor: int, period: int) {
    && |beats| <= |passes|
    && (forall i :: 0 <= i < |beats| ==> OnGrid(beats[i].boundary, anchor, period, beats[i].steps))
    && (forall i :: 0 <= i < |beats| ==> beats[i].boundary <= beats[i].start <= beats[i].end)
    && forall i :: 0 < i < |beats| ==>
         Follows(beats[i - 1], beats[i].boundary, beats[i].steps, period)
         && beats[i].start == beats[i].boundary + passes[i].oversleep
  }

  /** `boundary`, `steps` periods after the anchor, is the next one after `last` was built. */
  ghost predicate Follows(last: Beat, boundary: int, steps: int, period: int) {
    last.boundary < boundary && last.steps < steps && FirstAfter(boundary, last.end, period)
  }

  lemma {:induction false} KeepPace(beats: seq<Beat>, passes: seq<Pass>, anchor: int, period: int, beat: Beat)
    requires Paced(beats, passes, anchor, period) && |beats| < |passes|
    requires OnGrid(beat.boundary, anchor, period, beat.steps) && beat.boundary <= beat.start <= beat.end
    requires beats != [] ==> Follows(beats[|beats| - 1], beat.boundary, beat.steps, period)
    requires beats != [] ==> beat.start == beat.boundary + passes[|beats|].oversleep
    ensures Paced(beats + [beat], passes, anchor, period)
  {
    hide OnGrid, Follows;
  }

  lemma {:induction false} StepsApart(k: int, l: int, m: int, period: int)
    requires period > 0 && l * period < (k + m) * period
    ensures l < k + m
  {
    if l >= k + m {
      NoFewer(k + m, l, period);
    }
  }

  lemma {:induction false} NoFewer(a: int, b: int, period: int)
    requires period > 0 && a <= b
    ensures a * period <= b * period
  {
    StepsAdd(a, b - a, period);
    assert (b - a) * period >= 0;
  }

  /** Builds that fit the period reproduce the declared cadence exactly: one boundary a period. */
  lemma {:induction false} ShortBuildsKeepTheCadence(beats: seq<Beat>, passes: seq<Pass>, anchor: int, period: int,
        i: nat)
    requires period > 0 && Paced(beats, passes, anchor, period) && i < |beats|
    requires beats[0].boundary == anchor + period
    requires forall j :: 0 <= j < |beats| ==> beats[j].end < beats[j].boundary + period
    ensures beats[i].steps == i + 1 && beats[i].boundary == anchor + (i + 1) * period
  {
    if i == 0 {
      StepsApart(1, beats[0].steps, 1, period);
      StepsApart(beats[0].steps, 1, 1, period);
    } else {
      ShortBuildsKeepTheCadence(beats, passes, anchor, period, i - 1);
      var last, next := beats[i - 1], beats[i];
      assert Follows(last, next.boundary, next.steps, period);
      StepsAdd(last.steps, 2, period);
      StepsApart(last.steps, next.steps, 2, period);
    }
  }

  function Max(a: int, b: int): int { if a >= b then a else b }

  class Supervisor {
    const period: int
    var current: Served
    var builtOnce: bool
    var lastStarted: Option<int>
    /** The monotonic clock. */
    var clock: int

    /** A surface that is still waiting for its first build says so by being stale. */
    ghost predicate Valid()
      reads this
    {
      && (current.info.bootstrap ==> current.info.staleSince.Some? && !builtOnce)
      && (current.info.staleSince.Some? <==> current.info.lastError.Some?)
      && (builtOnce ==> lastStarted.Some?) && (lastStarted.Some? ==> lastStarted.value <= clock)
    }

    /** The caller waits for nothing: the surface comes up on the last good index, or empty, and
        says the first build has not finished. */
    constructor Deferred(period: int, warm: Option<Served>, clock: int, now: Stamp)
      ensures Valid() && this.period == period && this.clock == clock && lastStarted == None && !builtOnce
      ensures current.info.bootstrap && current.info.staleSince == Some(now)
      ensures warm.Some? ==> current == WarmSeed(warm.value, now)
      ensures warm.Some? ==> current.content == warm.value.content && StampedAlike(current.info, warm.value.info)
      ensures warm.Some? ==> current.info.warmStartFrom == Some(warm.value.info.builtAt)
      ensures warm.Some? ==> current.info.lastError == Some(
        NOT_BUILT + "; showing the index built " + warm.value.info.builtAt + ", from before the restart")
      ensures warm.None? ==> current == BlankStale(now, NOT_BUILT, true)
      ensures warm.None? ==> current.content == 0 && StampedAs(current.info, now, None)
      ensures warm.None? ==> current.info.warmStartFrom == None && current.info.lastError == Some(NOT_BUILT)
    {
      this.period, this.clock := period, clock;
      current := if warm.Some? then WarmSeed(warm.value, now) else BlankStale(now, NOT_BUILT, true);
      builtOnce, lastStarted := false, None;
    }

    /** The first build runs before the surface comes up; a failure leaves it empty and says why. */
    constructor Built(period: int, first: Outcome, clock: int, now: Stamp)
      ensures Valid() && this.period == period && this.clock == clock + first.ticks && lastStarted == Some(clock)
      ensures builtOnce == first.result.Ok? && !current.info.bootstrap
      ensures first.result.Ok? ==> current == Stamped(first.result.value, now, first.ticks)
      ensures first.result.Err? ==> current == BlankStale(now, first.result.error, false)
      ensures current.content == LastGood(0, [first]) && SaysSo(current.info, [first])
      ensures current.info.warmStartFrom == None
      ensures StampedAs(current.info, now, if first.result.Ok? then Some(first.ticks) else None)
    {
      this.period, lastStarted := period, Some(clock);
      this.clock := clock + first.ticks;
      match first.result
      case Ok(content) => current, builtOnce := Stamped(content, now, first.ticks), true;
      case Err(error) => current, builtOnce := BlankStale(now, error, false), false;
    }

    /** Rebuild and swap; a failure keeps serving what was served, marked. Either way the bootstrap
        window is over. */
    method RefreshOnce(outcome: Outcome, now: Stamp) returns (ok: bool)
      requires Valid()
      modifies this
      ensures Valid() && ok == outcome.result.Ok?
      ensures clock == old(clock) + outcome.ticks && lastStarted == Some(old(clock))
      ensures builtOnce == (old(builtOnce) || ok)
      ensures !current.info.bootstrap && current.info.warmStartFrom == None
      ensures ok ==> current == Stamped(outcome.result.value, now, outcome.ticks)
      ensures !ok ==> current == Failed(old(current), now, outcome.result.error)
      ensures current.content == LastGood(old(current.content), [outcome]) && SaysSo(current.info, [outcome])
      ensures ok ==> StampedAs(current.info, now, Some(outcome.ticks))
      ensures !ok ==> StampedAlike(current.info, old(current.info)) && current.info.staleSince == Some(now)
    {
      var started := clock;
      lastStarted := Some(started);
      clock := clock + outcome.ticks;
      match outcome.result
      case Err(error) =>
        current := MarkStale(current, now, error);
        if current.info.bootstrap || current.info.warmStartFrom.Some? {
          current := current.(info := current.info.(bootstrap := false, warmStartFrom := None));
        }
        ok := false;
      case Ok(content) =>
        current, builtOnce := Stamped(content, now, clock - started), true;
        ok := true;
    }

    /** The loop, for as many passes as come before `stop`: build at once if nothing was built yet,
        then on the grid anchored at the start of the build before it. The first boundary is one
        period after that anchor even if the anchoring build overran it; from then on every boundary
        is ahead. */
    method Loop(first: Outcome, stamp: Stamp, passes: seq<Pass>) returns (ghost beats: seq<Beat>, ghost anchor: int,
          ghost ready: int)
      requires Valid() && period > 0
      modifies this
      ensures Valid() && !current.info.bootstrap && |beats| == |passes|
      ensures current.content == LastGood(old(current.content), BuildsOf(old(builtOnce), first, passes))
      ensures SaysSo(current.info, BuildsOf(old(builtOnce), first, passes))
      ensures anchor == if old(builtOnce) then old(lastStarted).value else old(clock)
      ensures ready == if old(builtOnce) then old(clock) else old(clock) + first.ticks
      ensures Paced(beats, passes, anchor, period)
      ensures beats != [] ==>
        beats[0].boundary == anchor + period && beats[0].start == Max(anchor + period, ready) + passes[0].oversleep
    {
      if !builtOnce {
        var _ := RefreshOnce(first, stamp);
      }
      anchor, ready := lastStarted.value, clock;
      var next := lastStarted.value + period;
      ghost var k := 1;
      beats := [];
      for i := 0 to |passes|
        invariant Valid() && !current.info.bootstrap && |beats| == i
        invariant current.content == LastGood(old(current.content), BuildsOf(old(builtOnce), first, passes[..i]))
        invariant SaysSo(current.info, BuildsOf(old(builtOnce), first, passes[..i]))
        invariant OnGrid(next, anchor, period, k) && Paced(beats, passes, anchor, period)
        invariant i == 0 ==> next == anchor + period && clock == ready
        invariant i > 0 ==> beats[0].boundary == anchor + period
        invariant i > 0 ==> beats[0].start == Max(anchor + period, ready) + passes[0].oversleep
        invariant i > 0 ==> Follows(beats[i - 1], next, k, period) && clock == beats[i - 1].end
      {
        hide Paced, OnGrid, NextBoundary, FirstAfter, LastGood, BuildsOf, SaysSo, Failed;
        OneMoreBuild(old(current.content), old(builtOnce), first, passes, i);
        var waitFor := Max(next - clock, 0);
        clock := clock + waitFor + passes[i].oversleep;
        ghost var start := clock;
        var _ := RefreshOnce(passes[i].outcome, passes[i].now);
        ghost var beat := Beat(next, k, start, clock);
        KeepPace(beats, passes, anchor, period, beat);
        beats := beats + [beat];
        ghost var l := NextBoundaryMeaning(anchor, k, next, clock, period);
        next := NextBoundary(next, clock, period);
        k := l;
      }
      assert passes[..|passes|] == passes;
    }
  }
}
