/** `console/calendar_cadence.py`: symbolic cadences as staleness ceilings that already include the
    instant they are asked at. Time is whole minutes; day 0 is a Monday. */
module Calendar {
  import opened Wrappers

  const DAY := 1440
  const WEEK := 10080

  function DayOf(now: int): int { now / 1440 }

  /** Monday 0 .. Sunday 6. */
  function Weekday(day: int): int { day % 7 }

  predicate IsSaturday(day: int) { Weekday(day) == 5 }

  /** Whether a day is a session day. */
  type Checker = int -> bool

  datatype Cadence = SaturdaySf | WeekdaySf | EodSf | Continuous | EventDriven | Unknown

  datatype RunCalendar = AllDays | TradingDays | MarketHours | Undeclared | Other

  /** `[start, end)` hours of the day. */
  datatype Hours = Hours(start: int, end: int)

  predicate ValidHours(h: Hours) { 0 <= h.start < h.end <= 24 }

  // ------------------------------------------------------------------------- searches

  /** The first day at or before `day`, among `n`, that satisfies `p`. */
  function LastDay(p: int -> bool, day: int, n: nat): Option<int>
    decreases n
  {
    if n == 0 then None else if p(day) then Some(day) else LastDay(p, day - 1, n - 1)
  }

  /** The bounded backward walk every search of this file is. */
  method SearchBack(p: int -> bool, day: int, limit: nat) returns (found: Option<int>)
    ensures found == LastDay(p, day, limit)
  {
    var cursor := day;
    for i := 0 to limit
      invariant cursor == day - i
      invariant LastDay(p, day, limit) == LastDay(p, cursor, limit - i)
    {
      if p(cursor) {
        return Some(cursor);
      }
      cursor := cursor - 1;
    }
    found := None;
  }

  lemma {:induction false} LastDayMeaning(p: int -> bool, day: int, n: nat)
    ensures LastDay(p, day, n).Some? ==>
      var d := LastDay(p, day, n).value; day - n < d <= day && p(d) && forall x :: d < x <= day ==> !p(x)
    ensures LastDay(p, day, n).None? ==> forall x :: day - n < x <= day ==> !p(x)
    decreases n
  {
    if n > 0 && !p(day) {
      LastDayMeaning(p, day - 1, n - 1);
    }
  }

  /** A day that satisfies `p`, within reach, with none after it, is the one found. */
  lemma {:induction false} LastDayFinds(p: int -> bool, day: int, n: nat, d: int)
    requires day - n < d <= day && p(d) && forall x :: d < x <= day ==> !p(x)
    ensures LastDay(p, day, n) == Some(d)
  {
    LastDayMeaning(p, day, n);
  }

  function Owed(today: int, checker: Checker): int {
    var from := if checker(today) then today - 1 else today;
    match LastDay(checker, from, 30)
    case Some(d) => from - d
    case None => 0
  }

  method NonSessionDaysOwed(today: int, checker: Checker) returns (owed: int)
    ensures owed == Owed(today, checker)
  {
    var from := if checker(today) then today - 1 else today;
    var cursor := from;
    owed := 0;
    for i := 0 to 30
      invariant cursor == from - i && owed == i
      invariant LastDay(checker, from, 30) == LastDay(checker, cursor, 30 - i)
    {
      if checker(cursor) {
        return;
      }
      owed, cursor := owed + 1, cursor - 1;
    }
    owed := 0;
  }

  // ----------------------------------------------------------------------- idle minutes

  /** The daily window a producer is bound to, if it is bound to sessions at all. */
  function BoundTo(rc: RunCalendar, hours: Option<Hours>): Option<Hours> {
    var window := if hours.Some? && ValidHours(hours.value) then hours else None;
    if rc == TradingDays then Some(Hours(0, 24))
    else if rc == MarketHours || (rc == Undeclared && window.Some?) then window
    else None
  }

  function Max(a: int, b: int): int { if a >= b then a else b }

  function WindowIdle(settle: int, now: int, w: Hours, checker: Checker): int {
    var today := DayOf(now);
    var opens, closes := today * DAY + w.start * 60, today * DAY + w.end * 60;
    if checker(today) && opens + settle <= now < closes then 0
    else if checker(today) && now >= closes then now - closes
    else match LastDay(checker, today - 1, 30)
      case Some(d) => Max(0, now - (d * DAY + w.end * 60))
      case None => 0
  }

  function Idle(settle: int, now: int, bound: Option<Hours>, checker: Option<Checker>): int {
    if bound.None? || checker.None? then 0
    else if settle >= DAY then Owed(DayOf(now), checker.value) * DAY
    else WindowIdle(settle, now, bound.value, checker.value)
  }

  method ContinuousIdleMinutes(settle: int, now: int, rc: RunCalendar, hours: Option<Hours>, checker: Option<Checker>)
    returns (idle: int)
    ensures idle == Idle(settle, now, BoundTo(rc, hours), checker)
  {
    hide LastDay, Owed, BoundTo, DayOf;
    var bound := BoundTo(rc, hours);
    if bound == None || checker.None? {
      return 0;
    }
    var w, today := bound.value, DayOf(now);
    if settle >= DAY {
      var owed := NonSessionDaysOwed(today, checker.value);
      return owed * DAY;
    }
    if checker.value(today) {
      var opens := today * DAY + w.start * 60;
      var closes := opens + (w.end - w.start) * 60;
      if opens + settle <= now < closes {
        return 0;
      }
      if now >= closes {
        return now - closes;
      }
    }
    var last := SearchBack(checker.value, today - 1, 30);
    match last
    case Some(d) => idle := Max(0, now - (d * DAY + w.end * 60));
    case None => idle := 0;
  }

  // --------------------------------------------------------------------------- ceilings

  /** What a row declares besides its cadence. */
  datatype Declared = Declared(sla: int, interval: int, rc: RunCalendar, hours: Option<Hours>)

  function SinceDay(day: int, now: int): int { Max(0, now - day * DAY) }

  /** The age ceiling at `now`; None is "not audited". */
  function Ceiling(c: Cadence, d: Declared, now: int, checker: Option<Checker>): Option<int> {
    match c
    case EventDriven => None
    case Unknown => None
    case Continuous =>
      if d.interval == 0 then None
      else Some(d.interval + d.sla + Idle(d.interval + d.sla, now, BoundTo(d.rc, d.hours), checker))
    case SaturdaySf => (
      match LastDay(IsSaturday, DayOf(now) - 1, 8)
      case None => None
      case Some(boundary) => Some(SinceDay(boundary, now) + DAY + d.sla))
    case _ =>
      if checker.None? then None
      else match LastDay(checker.value, DayOf(now) - 1, 30)
        case None => None
        case Some(boundary) => Some(SinceDay(boundary, now) + DAY + d.sla)
  }

  method EffectiveCadenceMinutes(c: Cadence, d: Declared, now: int,
        checker: Option<Checker>) returns (ceiling: Option<int>)
    ensures ceiling == Ceiling(c, d, now, checker)
  {
    hide LastDay, Idle, BoundTo, DayOf, SinceDay;
    if c == Unknown || c == EventDriven {
      return None;
    }
    if c == Continuous {
      if d.interval == 0 {
        return None;
      }
      var flat := d.interval + d.sla;
      var idle := ContinuousIdleMinutes(flat, now, d.rc, d.hours, checker);
      return Some(flat + idle);
    }
    var boundary: Option<int>;
    if c == SaturdaySf {
      boundary := SearchBack(IsSaturday, DayOf(now) - 1, 8);
    } else {
      if checker.None? {
        return None;
      }
      boundary := SearchBack(checker.value, DayOf(now) - 1, 30);
    }
    match boundary
    case None => ceiling := None;
    case Some(day) => ceiling := Some(SinceDay(day, now) + DAY + d.sla);
  }

  /** `freshness` with factor 1. */
  predicate Fresh(stamp: int, ceiling: int, now: int) { now - stamp <= ceiling }

  // ---------------------------------------------------- a stale row stays stale until rewritten

  /** Before it nothing is fresh. */
  function Floor(settle: int, now: int, bound: Option<Hours>, checker: Option<Checker>): int {
    now - (settle + Idle(settle, now, bound, checker))
  }

  ghost predicate NeverMovesBack(settle: int, bound: Option<Hours>, checker: Option<Checker>) {
    forall t, u :: t <= u ==> Floor(settle, t, bound, checker) <= Floor(settle, u, bound, checker)
  }

  lemma {:induction false} DayOfNext(t: int)
    ensures DayOf(t) * 1440 <= t < DayOf(t) * 1440 + 1440
    ensures t + 1 < DayOf(t) * 1440 + 1440 ==> DayOf(t + 1) == DayOf(t)
    ensures t + 1 == DayOf(t) * 1440 + 1440 ==> DayOf(t + 1) == DayOf(t) + 1
  {
  }

  /** How far the anchor of a day's search can be behind the next day's. */
  lemma {:induction false} SearchesMeet(checker: Checker, day: int)
    ensures var here, next := LastDay(checker, day - 1, 30), LastDay(checker, day, 30);
      && (checker(day) ==> next == Some(day))
      && (!checker(day) && next.Some? ==> here == next)
      && (here.Some? ==> here.value <= day - 1)
      && (next.Some? ==> next.value <= day)
  {
    LastDayMeaning(checker, day - 1, 30);
    LastDayMeaning(checker, day, 30);
    if !checker(day) && LastDay(checker, day, 30).Some? {
      LastDayFinds(checker, day - 1, 30, LastDay(checker, day, 30).value);
    }
  }

  lemma {:induction false} OneMinuteLater(settle: int, t: int, w: Hours, checker: Checker)
    requires 0 <= settle < DAY && ValidHours(w)
    ensures t - WindowIdle(settle, t, w, checker) <= t + 1 - WindowIdle(settle, t + 1, w, checker)
  {
    DayOfNext(t);
    SearchesMeet(checker, DayOf(t));
    hide LastDay, DayOf;
  }

  lemma {:induction false} MinutesLater(settle: int, t: int, u: int, w: Hours, checker: Checker)
    requires 0 <= settle < DAY && ValidHours(w) && t <= u
    ensures t - WindowIdle(settle, t, w, checker) <= u - WindowIdle(settle, u, w, checker)
    decreases u - t
  {
    hide WindowIdle;
    if t < u {
      OneMinuteLater(settle, t, w, checker);
      MinutesLater(settle, t + 1, u, w, checker);
    }
  }

  /** A producer that settles within a day: its floor never moves back, in any window, over any
      calendar, the unanswered search included. */
  lemma {:induction false} WindowFloorNeverMovesBack(settle: int, bound: Option<Hours>, checker: Option<Checker>)
    requires 0 <= settle < DAY && (bound.Some? ==> ValidHours(bound.value))
    ensures NeverMovesBack(settle, bound, checker)
  {
    forall t, u | t <= u ensures Floor(settle, t, bound, checker) <= Floor(settle, u, bound, checker) {
      if bound.Some? && checker.Some? {
        MinutesLater(settle, t, u, bound.value, checker.value);
      }
      hide WindowIdle;
    }
  }

  ghost predicate SessionBetween(checker: Checker, from: int, to: int) {
    exists x :: from <= x <= to && checker(x)
  }

  /** A day off that lengthens the gap: after a session day that ended no gap within reach, or after
      a day off with a session day within reach. */
  ghost predicate GapGrows(checker: Checker, day: int) {
    !checker(day + 1) &&
    if checker(day) then checker(day - 1) || !SessionBetween(checker, day - 30, day - 1)
    else SessionBetween(checker, day - 28, day - 1)
  }

  ghost predicate GapsNeverGrow(checker: Checker) {
    forall day :: !GapGrows(checker, day)
  }

  /** A day is owed more than the day before it exactly when it lengthens the gap. */
  lemma {:induction false} OwedMoreIffGapGrows(checker: Checker, day: int)
    ensures Owed(day + 1, checker) > Owed(day, checker) <==> GapGrows(checker, day)
  {
    LastDayMeaning(checker, day - 1, 30);
    LastDayMeaning(checker, day, 30);
    LastDayMeaning(checker, day + 1, 30);
    SearchesMeet(checker, day);
    SearchesMeet(checker, day + 1);
    hide LastDay;
  }

  lemma {:induction false} FloorOfDay(settle: int, now: int, bound: Option<Hours>, checker: Checker)
    requires settle >= DAY && bound.Some?
    ensures Floor(settle, now, bound, Some(checker)) == now - settle - Owed(DayOf(now), checker) * 1440
  {
  }

  /** A producer bound to sessions that needs a day or longer: the floor moves back over a midnight
      exactly when the new day is owed more. */
  lemma {:induction false} DayFloorMovesBackWhenOwed(settle: int, day: int, bound: Option<Hours>, checker: Checker)
    requires settle >= DAY && bound.Some?
    ensures var midnight := (day + 1) * 1440;
      Floor(settle, midnight, bound, Some(checker)) < Floor(settle, midnight - 1, bound, Some(checker))
      <==> Owed(day + 1, checker) > Owed(day, checker)
  {
    var midnight := (day + 1) * 1440;
    assert DayOf(midnight) == day + 1 && DayOf(midnight - 1) == day;
    FloorOfDay(settle, midnight, bound, checker);
    FloorOfDay(settle, midnight - 1, bound, checker);
    hide Floor, Owed;
  }

  lemma {:induction false} SameOrLaterDay(settle: int, t: int, u: int, bound: Option<Hours>, checker: Checker)
    requires settle >= DAY && bound.Some? && GapsNeverGrow(checker) && t <= u
    ensures Floor(settle, t, bound, Some(checker)) <= Floor(settle, u, bound, Some(checker))
    decreases u - t
  {
    hide Floor;
    if t < u {
      DayOfNext(t);
      FloorOfDay(settle, t, bound, checker);
      FloorOfDay(settle, t + 1, bound, checker);
      OwedMoreIffGapGrows(checker, DayOf(t));
      hide Owed;
      SameOrLaterDay(settle, t + 1, u, bound, checker);
    }
  }

  /** The floor never moves back exactly when the producer settles within a day, is not bound to
      sessions or has no calendar, or when no day off lengthens a gap. */
  lemma {:induction false} FloorNeverMovesBackIff(settle: int, bound: Option<Hours>, checker: Option<Checker>)
    requires 0 <= settle && (bound.Some? ==> ValidHours(bound.value))
    ensures NeverMovesBack(settle, bound, checker) <==>
      settle < DAY || bound.None? || checker.None? || GapsNeverGrow(checker.value)
  {
    if settle < DAY {
      WindowFloorNeverMovesBack(settle, bound, checker);
    } else if bound.Some? && checker.Some? {
      if GapsNeverGrow(checker.value) {
        forall t, u | t <= u ensures Floor(settle, t, bound, checker) <= Floor(settle, u, bound, checker) {
          SameOrLaterDay(settle, t, u, bound, checker.value);
        }
      } else {
        var day :| GapGrows(checker.value, day);
        OwedMoreIffGapGrows(checker.value, day);
        DayFloorMovesBackWhenOwed(settle, day, bound, checker.value);
      }
    }
  }

  /** Any calendar with two session days and then a day off has such a midnight. */
  lemma {:induction false} WeekendGrowsTheGap(checker: Checker, day: int)
    requires checker(day - 1) && checker(day) && !checker(day + 1)
    ensures Owed(day, checker) == 0 && Owed(day + 1, checker) == 1 && !GapsNeverGrow(checker)
  {
    assert GapGrows(checker, day);
    LastDayFinds(checker, day - 1, 30, day - 1);
    LastDayFinds(checker, day + 1, 30, day);
  }

  /** A symbol tied to a boundary day: while it is audited, its floor never moves back either. */
  lemma {:induction false} BoundaryFloorNeverMovesBack(c: Cadence, d: Declared, t: int, u: int,
        checker: Option<Checker>)
    requires c == SaturdaySf || c == WeekdaySf || c == EodSf
    requires t <= u && Ceiling(c, d, t, checker).Some? && Ceiling(c, d, u, checker).Some?
    ensures t - Ceiling(c, d, t, checker).value <= u - Ceiling(c, d, u, checker).value
  {
    hide LastDay, SinceDay, IsSaturday, DayOf;
    if c == SaturdaySf {
      LaterBoundary(IsSaturday, 8, t, u);
    } else {
      LaterBoundary(checker.value, 30, t, u);
    }
  }

  /** The boundary found later is no earlier. */
  lemma {:induction false} LaterBoundary(p: int -> bool, n: nat, t: int, u: int)
    requires t <= u && LastDay(p, DayOf(t) - 1, n).Some? && LastDay(p, DayOf(u) - 1, n).Some?
    ensures t - SinceDay(LastDay(p, DayOf(t) - 1, n).value, t) <= u - SinceDay(LastDay(p, DayOf(u) - 1, n).value, u)
  {
    LastDayMeaning(p, DayOf(t) - 1, n);
    LastDayMeaning(p, DayOf(u) - 1, n);
    DayOfNext(t);
    DayOfNext(u);
    assert DayOf(t) <= DayOf(u);
    hide LastDay, DayOf;
  }

  /** A Saturday is always within reach: `saturday_sf` is always audited. */
  lemma {:induction false} SaturdayIsAlwaysFound(d: Declared, now: int, checker: Option<Checker>)
    ensures Ceiling(SaturdaySf, d, now, checker).Some?
  {
    var today := DayOf(now) - 1;
    SaturdayInReach(today);
    LastDayMeaning(IsSaturday, today, 8);
    hide IsSaturday, DayOf, LastDay;
  }

  lemma {:induction false} SaturdayInReach(day: int)
    ensures exists x :: day - 8 < x <= day && IsSaturday(x)
  {
    var x := day - (day + 2) % 7;
    assert IsSaturday(x);
  }

  // --------------------------------------------------------- a producer bound to a window

  function Close(day: int, w: Hours): int { day * 1440 + w.end * 60 }

  /** `day`'s window is the last one that has closed by `now`. */
  ghost predicate LastClosed(checker: Checker, w: Hours, day: int, now: int) {
    checker(day) && Close(day, w) <= now && forall later :: later > day && checker(later) ==> Close(later, w) > now
  }

  /** Inside a window, and one interval and allowance past its opening. */
  predicate SettledInside(settle: int, now: int, w: Hours, checker: Checker) {
    var today := DayOf(now);
    checker(today) && today * 1440 + w.start * 60 + settle <= now < Close(today, w)
  }

  /** A row is fresh when it was written within one interval and allowance of the last instant the
      producer was expected to write: now, once settled inside a window; otherwise the close of the
      last window that closed. So a healthy producer is never stale while idle, and one that dies in
      mid-session is caught. */
  lemma {:induction false} WindowVerdict(settle: int, now: int, w: Hours, checker: Checker, day: int, stamp: int)
    requires 0 <= settle < DAY && ValidHours(w)
    requires LastClosed(checker, w, day, now) && DayOf(now) - day <= 30
    ensures Fresh(stamp, settle + WindowIdle(settle, now, w, checker), now) <==>
      stamp >= (if SettledInside(settle, now, w, checker) then now else Close(day, w)) - settle
  {
    var today := DayOf(now);
    DayOfNext(now);
    assert day < today && checker(today) ==> Close(today, w) > now;
    if day < today {
      forall x | day < x <= today - 1 ensures !checker(x) {
        assert Close(x, w) <= now;
      }
      LastDayFinds(checker, today - 1, 30, day);
    }
    hide LastDay, DayOf;
  }

  // ------------------------------------------------------ a day-or-longer interval over a gap

  /** `next` is the first session day after the session day `last`. */
  ghost predicate NextSession(checker: Checker, last: int, next: int) {
    checker(last) && checker(next) && last < next && forall x :: last < x < next ==> !checker(x)
  }

  /** What is owed is exactly the gap: the days since the last session on a day off, all of them on
      the next session day. */
  lemma {:induction false} OwedIsTheGap(checker: Checker, last: int, next: int, day: int)
    requires NextSession(checker, last, next) && next - last <= 30 && last < day <= next
    ensures Owed(day, checker) == if day < next then day - last else next - last - 1
  {
    LastDayFinds(checker, if day < next then day else day - 1, 30, last);
  }

  /** Written at minute `m` of a session day, a row is fresh for the rest of that day and on every
      day off, and on the next session day turns stale exactly after minute `m + (settle - DAY)`,
      whatever the length of the gap. */
  lemma {:induction false} WrittenOnASessionDay(
    settle: int, bound: Hours, checker: Checker, last: int, next: int, m: int, now: int)
    requires settle >= DAY && NextSession(checker, last, next) && next - last <= 30
    requires 0 <= m < 1440 && last * 1440 + m <= now && DayOf(now) <= next
    ensures Fresh(last * 1440 + m, settle + Idle(settle, now, Some(bound), Some(checker)), now) <==>
      DayOf(now) < next || now <= next * 1440 + m + (settle - 1440)
  {
    DayOfNext(now);
    if DayOf(now) > last {
      OwedIsTheGap(checker, last, next, DayOf(now));
    } else {
      NothingOwedBelow(checker, DayOf(now));
    }
    hide Owed, DayOf;
  }

  lemma {:induction false} NothingOwedBelow(checker: Checker, day: int)
    ensures Owed(day, checker) >= 0
  {
    LastDayMeaning(checker, day, 30);
    LastDayMeaning(checker, day - 1, 30);
  }

  // ------------------------------------------------------- the verdict each symbol comes to

  /** The days a symbol is tied to: Saturdays, or the sessions of the calendar. */
  predicate BoundaryDay(c: Cadence, checker: Option<Checker>, day: int) {
    if c == SaturdaySf then day % 7 == 5 else checker.Some? && checker.value(day)
  }

  /** How many days back a boundary is looked for. */
  function Reach(c: Cadence): nat { if c == SaturdaySf then 8 else 30 }

  ghost predicate LastBoundary(c: Cadence, checker: Option<Checker>, today: int, b: int) {
    b < today && BoundaryDay(c, checker, b) && forall x :: b < x < today ==> !BoundaryDay(c, checker, x)
  }

  /** A row tied to a boundary is fresh exactly when written no earlier than a day and the allowance
      before the last boundary day began. */
  lemma {:induction false} BoundaryVerdict(
    c: Cadence, d: Declared, now: int, checker: Option<Checker>, b: int, stamp: int)
    requires c == SaturdaySf || c == WeekdaySf || c == EodSf
    requires LastBoundary(c, checker, DayOf(now), b) && DayOf(now) - b <= Reach(c)
    ensures Ceiling(c, d, now, checker).Some?
    ensures Fresh(stamp, Ceiling(c, d, now, checker).value, now) <==> stamp >= b * 1440 - 1440 - d.sla
  {
    var today := DayOf(now);
    DayOfNext(now);
    if c == SaturdaySf {
      forall x | b < x <= today - 1 ensures !IsSaturday(x) {
        assert !BoundaryDay(c, checker, x);
      }
      LastDayFinds(IsSaturday, today - 1, 8, b);
    } else {
      forall x | b < x <= today - 1 ensures !checker.value(x) {
        assert !BoundaryDay(c, checker, x);
      }
      LastDayFinds(checker.value, today - 1, 30, b);
    }
    hide LastDay, DayOf, IsSaturday;
  }

  /** What is never audited: a symbol with no deadline of its own, a producer without an interval, or a
      boundary no calendar has within reach. */
  lemma {:induction false} NotAuditedIff(c: Cadence, d: Declared, now: int, checker: Option<Checker>)
    ensures Ceiling(c, d, now, checker).None? <==>
      match c
      case EventDriven => true
      case Unknown => true
      case Continuous => d.interval == 0
      case SaturdaySf => false
      case _ => forall x :: DayOf(now) - 30 <= x < DayOf(now) ==> !BoundaryDay(c, checker, x)
  {
    match c
    case SaturdaySf => SaturdayIsAlwaysFound(d, now, checker);
    case WeekdaySf => SessionsInReach(c, d, now, checker);
    case EodSf => SessionsInReach(c, d, now, checker);
    case _ =>
  }

  lemma {:induction false} SessionsInReach(c: Cadence, d: Declared, now: int, checker: Option<Checker>)
    requires c == WeekdaySf || c == EodSf
    ensures Ceiling(c, d, now, checker).None? <==>
      forall x :: DayOf(now) - 30 <= x < DayOf(now) ==> !BoundaryDay(c, checker, x)
  {
    if checker.Some? {
      LastDayMeaning(checker.value, DayOf(now) - 1, 30);
      hide LastDay, DayOf;
      var last := LastDay(checker.value, DayOf(now) - 1, 30);
      if last.Some? {
        assert BoundaryDay(c, checker, last.value);
      }
    }
  }

  /** The window a producer is bound to: the whole of a trading day, or its own hours when they make
      one, in the market's calendar or in none it declares. */
  predicate BoundBy(d: Declared, w: Hours) {
    || (d.rc == TradingDays && w == Hours(0, 24))
    || ((d.rc == MarketHours || d.rc == Undeclared) && d.hours == Some(w) && 0 <= w.start < w.end <= 24)
  }

  lemma {:induction false} BoundIff(d: Declared, w: Hours)
    ensures BoundTo(d.rc, d.hours) == Some(w) <==> BoundBy(d, w)
  {
  }

  /** A producer that runs around the clock, or has no calendar to go by, is fresh for one interval and
      its allowance. */
  lemma {:induction false} FlatVerdict(d: Declared, now: int, checker: Option<Checker>, stamp: int)
    requires d.interval != 0 && (checker.None? || forall w :: !BoundBy(d, w))
    ensures Ceiling(Continuous, d, now, checker).Some?
    ensures Fresh(stamp, Ceiling(Continuous, d, now, checker).value, now) <==> now - stamp <= d.interval + d.sla
  {
    var bound := BoundTo(d.rc, d.hours);
    if bound.Some? {
      BoundIff(d, bound.value);
    }
    hide BoundTo, BoundBy;
  }

  /** One bound to a window is measured from now once settled inside it, else from the last close. */
  lemma {:induction false} BoundVerdict(
    d: Declared, now: int, w: Hours, checker: Checker, day: int, stamp: int)
    requires d.interval != 0 && BoundBy(d, w) && 0 <= d.interval + d.sla < 1440
    requires LastClosed(checker, w, day, now) && DayOf(now) - day <= 30
    ensures Ceiling(Continuous, d, now, Some(checker)).Some?
    ensures Fresh(stamp, Ceiling(Continuous, d, now, Some(checker)).value, now) <==>
      var settle := d.interval + d.sla;
      stamp >= (if SettledInside(settle, now, w, checker) then now else Close(day, w)) - settle
  {
    BoundIff(d, w);
    WindowVerdict(d.interval + d.sla, now, w, checker, day, stamp);
    hide WindowIdle, BoundTo, LastClosed, SettledInside, DayOf;
  }

  /** And one that needs a day or longer is fresh for the days owed on top, exactly the gap. */
  lemma {:induction false} LongVerdict(
    d: Declared, now: int, w: Hours, checker: Checker, last: int, next: int, stamp: int)
    requires d.interval != 0 && BoundBy(d, w) && d.interval + d.sla >= 1440
    requires NextSession(checker, last, next) && next - last <= 30 && last < DayOf(now) <= next
    ensures Ceiling(Continuous, d, now, Some(checker)).Some?
    ensures Fresh(stamp, Ceiling(Continuous, d, now, Some(checker)).value, now) <==>
      now - stamp <= d.interval + d.sla + (if DayOf(now) < next then DayOf(now) - last else next - last - 1) * 1440
  {
    BoundIff(d, w);
    OwedIsTheGap(checker, last, next, DayOf(now));
    hide BoundTo, Owed, DayOf, NextSession;
  }

  // ------------------------------------------------------------------------ weekly deadline

  /** An instant of the declared weekday and hour. */
  predicate IsDeadline(weekday: int, hour: int, at: int) {
    Weekday(DayOf(at)) == weekday % 7 && at % 1440 == hour * 60
  }

  ghost predicate LatestDeadline(weekday: int, hour: int, now: int, at: int) {
    IsDeadline(weekday, hour, at) && at <= now && forall x :: at < x <= now ==> !IsDeadline(weekday, hour, x)
  }

  /** Between one week and two, and it reaches back one week beyond the latest deadline. */
  method WeeklyDeadlineCeilingMinutes(weekday: int, hour: int, now: int) returns (ceiling: int)
    requires 0 <= hour < 24
    ensures WEEK <= ceiling < 2 * WEEK && LatestDeadline(weekday, hour, now, now - ceiling + WEEK)
  {
    var deadline := DayOf(now) * DAY + hour * 60;
    var back := (Weekday(DayOf(now)) - weekday) % 7;
    deadline := deadline - back * DAY;
    DayOfNext(now);
    DaysBack(DayOf(now), weekday);
    AtHour(DayOf(now) - back, hour);
    AtHour(DayOf(now) - back - 7, hour);
    hide Weekday, DayOf;
    assert IsDeadline(weekday, hour, deadline) && IsDeadline(weekday, hour, deadline - 10080);
    if deadline > now {
      deadline := deadline - WEEK;
    }
    ceiling := now - (deadline - WEEK);
    hide IsDeadline;
    forall x | deadline < x <= now ensures !IsDeadline(weekday, hour, x) {
      if IsDeadline(weekday, hour, x) {
        DeadlinesAreAWeekApart(weekday, hour, deadline, x);
        assert false;
      }
    }
  }

  lemma {:induction false} DaysBack(day: int, weekday: int)
    ensures var back := (Weekday(day) - weekday) % 7;
      0 <= back < 7 && Weekday(day - back) == weekday % 7 && Weekday(day - back - 7) == weekday % 7
  {
  }

  lemma {:induction false} AtHour(day: int, hour: int)
    requires 0 <= hour < 24
    ensures DayOf(day * 1440 + hour * 60) == day && (day * 1440 + hour * 60) % 1440 == hour * 60
  {
  }

  lemma {:induction false} DeadlinesAreAWeekApart(weekday: int, hour: int, a: int, b: int)
    requires IsDeadline(weekday, hour, a) && IsDeadline(weekday, hour, b) && a < b
    ensures a + 10080 <= b
  {
    DayOfNext(a);
    DayOfNext(b);
    var x, y := DayOf(a), DayOf(b);
    assert a == x * 1440 + hour * 60 && b == y * 1440 + hour * 60;
    assert x % 7 == y % 7 && x < y;
    assert y - x >= 7;
  }

  lemma {:induction false} AWeekAfterADeadline(weekday: int, hour: int, at: int)
    requires IsDeadline(weekday, hour, at)
    ensures IsDeadline(weekday, hour, at + 10080) && IsDeadline(weekday, hour, at - 10080)
  {
    DayOfNext(at);
    var day := DayOf(at);
    assert DayOf(at + 10080) == day + 7 && DayOf(at - 10080) == day - 7;
  }

  /** A row is fresh exactly while it was written at or after the deadline before the latest. */
  lemma {:induction false} WeeklyVerdict(
    weekday: int, hour: int, now: int, ceiling: int, stamp: int, latest: int, previous: int)
    requires LatestDeadline(weekday, hour, now, now - ceiling + WEEK)
    requires LatestDeadline(weekday, hour, now, latest) && LatestDeadline(weekday, hour, latest - 1, previous)
    ensures Fresh(stamp, ceiling, now) <==> stamp >= previous
  {
    AWeekAfterADeadline(weekday, hour, latest);
    DeadlinesAreAWeekApart(weekday, hour, previous, latest);
    hide IsDeadline;
  }

  /** The verdict on a row that is not rewritten changes only from fresh to stale, and only at a
      deadline: between two instants that differ lies one. */
  lemma {:induction false} WeeklyVerdictFlipsAtADeadline(
    weekday: int, hour: int, stamp: int, t: int, early: int, u: int, late: int)
    requires t <= u
    requires LatestDeadline(weekday, hour, t, t - early + WEEK) && LatestDeadline(weekday, hour, u, u - late + WEEK)
    ensures Fresh(stamp, early, t) != Fresh(stamp, late, u) ==>
      Fresh(stamp, early, t) && exists at :: t < at <= u && IsDeadline(weekday, hour, at)
  {
    var a, b := t - early + WEEK, u - late + WEEK;
    hide IsDeadline;
    if Fresh(stamp, early, t) != Fresh(stamp, late, u) {
      assert a != b && a <= u;
      assert t < b <= u && IsDeadline(weekday, hour, b);
    }
  }
}
