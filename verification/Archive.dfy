/** `console/index/actions.py:534-621`: reading a tracker page by page. The archive stops a label
    early, and still returns the newest closures there are. */
module Archive {
  import opened Wrappers
  import opened Sorting

  const PAGE := 100
  const MAX_PAGES := 10
  const ARCHIVE_SIZE := 30

  /** One issue as the tracker lists it. */
  datatype Row = Row(number: nat, pull: bool, closed: bool, closedAt: int, updatedAt: int)

  /** What the tracker lists under one label, in the order asked for. */
  type Label = seq<Row>

  function Min(a: int, b: int): int { if a <= b then a else b }

  /** Page `p`, counted from 0. */
  function Page(rows: Label, p: nat): seq<Row> { rows[Min(p * PAGE, |rows|)..Min((p + 1) * PAGE, |rows|)] }

  /** An archived action: a closed issue that is no pull request. */
  predicate Archived(r: Row) { !r.pull && r.closed }

  predicate Action(r: Row) { !r.pull }

  predicate Knows(seen: seq<Row>, number: nat) { exists i :: 0 <= i < |seen| && seen[i].number == number }

  /** `seen.setdefault`, in order of insertion. */
  function Note(seen: seq<Row>, r: Row, wanted: Row -> bool): seq<Row> {
    if wanted(r) && !Knows(seen, r.number) then seen + [r] else seen
  }

  function NoteAll(seen: seq<Row>, rows: seq<Row>, wanted: Row -> bool): seq<Row> {
    if rows == [] then seen else Note(NoteAll(seen, rows[..|rows| - 1], wanted), rows[|rows| - 1], wanted)
  }

  method AddPage(seen0: seq<Row>, rows: seq<Row>, wanted: Row -> bool) returns (seen: seq<Row>)
    ensures seen == NoteAll(seen0, rows, wanted)
  {
    seen := seen0;
    for i := 0 to |rows|
      invariant seen == NoteAll(seen0, rows[..i], wanted)
    {
      assert rows[..i + 1][..i] == rows[..i];
      if wanted(rows[i]) && !Knows(seen, rows[i].number) {
        seen := seen + [rows[i]];
      }
    }
    assert rows[..|rows|] == rows;
  }

  lemma {:induction false} NoteAllAppends(seen: seq<Row>, a: seq<Row>, b: seq<Row>, wanted: Row -> bool)
    ensures NoteAll(seen, a + b, wanted) == NoteAll(NoteAll(seen, a, wanted), b, wanted)
    decreases |b|
  {
    if b == [] {
      assert a + b == a;
    } else {
      var n := |b| - 1;
      NoteAllAppends(seen, a, b[..n], wanted);
      assert (a + b)[..|a + b| - 1] == a + b[..n];
    }
  }

  lemma {:induction false} PageFollows(rows: Label, p: nat)
    ensures rows[..Min((p + 1) * PAGE, |rows|)] == rows[..Min(p * PAGE, |rows|)] + Page(rows, p)
    ensures |Page(rows, p)| < PAGE <==> (p + 1) * PAGE > |rows|
  {
  }

  /** Newest closure first. */
  function Newest(seen: seq<Row>): seq<Row> { SortBy(seen, (r: Row) => -r.closedAt) }

  lemma {:induction false} NewestMeaning(seen: seq<Row>)
    ensures |Newest(seen)| == |seen| && multiset(Newest(seen)) == multiset(seen)
    ensures forall i, j :: 0 <= i < j < |seen| ==> Newest(seen)[i].closedAt >= Newest(seen)[j].closedAt
    ensures forall r :: r in Newest(seen) <==> r in seen
  {
    var key := (r: Row) => -r.closedAt;
    SortByMeaning(seen, key);
    forall i, j | 0 <= i < j < |seen| ensures Newest(seen)[i].closedAt >= Newest(seen)[j].closedAt {
      assert key(Newest(seen)[i]) <= key(Newest(seen)[j]);
    }
  }

  /** Nothing unread, under a label whose last page read ends in `last`, can be among the newest. */
  predicate Enough(seen: seq<Row>, last: Row) {
    |seen| >= ARCHIVE_SIZE && |Newest(seen)| == |seen| && last.updatedAt < Newest(seen)[ARCHIVE_SIZE - 1].closedAt
  }

  method EnoughHeld(seen: seq<Row>, last: Row) returns (enough: bool)
    ensures enough == Enough(seen, last)
  {
    NewestMeaning(seen);
    hide Newest;
    var closed := Newest(seen);
    enough := |closed| >= ARCHIVE_SIZE && last.updatedAt < closed[ARCHIVE_SIZE - 1].closedAt;
  }

  function ReadTo(rows: Label, pages: nat): Label { rows[..Min(pages * PAGE, |rows|)] }

  /** Where a label's read may stop: its end, the page limit, or a page after which enough is held. */
  predicate Stops(rows: Label, pages: nat, seen: seq<Row>) {
    || pages * PAGE >= |rows|
    || pages == MAX_PAGES
    || (pages > 0 && Enough(seen, rows[pages * PAGE - 1]))
  }

  /** `seen` is what reading so many pages leaves, and the read may stop there. */
  ghost predicate ReadUntil(seen0: seq<Row>, rows: Label, pages: nat, seen: seq<Row>) {
    pages <= MAX_PAGES && seen == NoteAll(seen0, ReadTo(rows, pages), Archived) && Stops(rows, pages, seen)
  }

  /** After so many pages there was more to read, and thirty closures later than the last update were
      not yet held. */
  ghost predicate GoesOn(seen0: seq<Row>, rows: Label, pages: nat) {
    && pages * PAGE <= |rows|
    && (pages > 0 ==> Count(NoteAll(seen0, ReadTo(rows, pages), Archived), rows[pages * PAGE - 1].updatedAt) < 30)
  }

  ghost predicate ReadSo(seen0: seq<Row>, rows: Label, pages: nat, seen: seq<Row>) {
    ReadUntil(seen0, rows, pages, seen) && forall q: nat :: q < pages ==> GoesOn(seen0, rows, q)
  }

  lemma {:induction false} EnoughIff(seen: seq<Row>, last: Row)
    ensures Enough(seen, last) <==> Count(seen, last.updatedAt) >= 30
  {
    NewestMeaning(seen);
    CountBounds(seen, last.updatedAt);
    if |seen| >= ARCHIVE_SIZE {
      CountInOrder(seen, last.updatedAt, ARCHIVE_SIZE - 1);
    }
    hide Newest, Count;
  }

  /** One label of the archive: pages until one is short, or until enough is held, and not one more. */
  method ArchiveLabel(seen0: seq<Row>, rows: Label) returns (seen: seq<Row>)
    ensures exists pages: nat :: ReadSo(seen0, rows, pages, seen)
  {
    hide Enough, NoteAll, Count;
    seen := seen0;
    NoteNothing(seen0, rows);
    for p := 0 to MAX_PAGES
      invariant seen == NoteAll(seen0, ReadTo(rows, p), Archived)
      invariant forall q: nat :: q <= p ==> GoesOn(seen0, rows, q)
    {
      var page := Page(rows, p);
      PageFollows(rows, p);
      NoteAllAppends(seen0, ReadTo(rows, p), page, Archived);
      seen := AddPage(seen, page, Archived);
      if |page| < PAGE {
        assert ReadSo(seen0, rows, p + 1, seen);
        return;
      }
      EnoughIff(seen, page[|page| - 1]);
      var enough := EnoughHeld(seen, page[|page| - 1]);
      if enough {
        assert page[|page| - 1] == rows[(p + 1) * PAGE - 1];
        assert ReadSo(seen0, rows, p + 1, seen);
        return;
      }
      assert GoesOn(seen0, rows, p + 1);
    }
    assert ReadSo(seen0, rows, MAX_PAGES, seen);
  }

  lemma {:induction false} NoteNothing(seen: seq<Row>, rows: Label)
    ensures NoteAll(seen, ReadTo(rows, 0), Archived) == seen
  {
    assert ReadTo(rows, 0) == [];
  }

  // -------------------------------------------------------------- what the tracker promises

  /** One issue reads alike under every label, an update is never earlier than a closure, and a
      label is listed by update, latest first. */
  ghost predicate Tracker(labels: seq<Label>) {
    && (forall k, l, x, y | 0 <= k < |labels| && 0 <= l < |labels| && x in labels[k] && y in labels[l] ::
          x.number == y.number ==> x == y)
    && (forall k, x | 0 <= k < |labels| && x in labels[k] :: x.closedAt <= x.updatedAt)
    && forall k, i, j | 0 <= k < |labels| && 0 <= i < j < |labels[k]| ::
         labels[k][i].updatedAt >= labels[k][j].updatedAt
  }

  ghost predicate Listed(labels: seq<Label>, r: Row) { exists k :: 0 <= k < |labels| && r in labels[k] }

  ghost predicate Unrepeated(seen: seq<Row>) { forall i, j :: 0 <= i < j < |seen| ==> seen[i].number != seen[j].number }

  /** What is held is archived, listed, and held once. */
  ghost predicate Held(labels: seq<Label>, seen: seq<Row>) {
    Unrepeated(seen) && forall r :: r in seen ==> Archived(r) && Listed(labels, r)
  }

  lemma {:induction false} NoteAllMeaning(labels: seq<Label>, k: nat, seen: seq<Row>, n: nat)
    requires Tracker(labels) && Held(labels, seen) && k < |labels| && n <= |labels[k]|
    ensures var now := NoteAll(seen, labels[k][..n], Archived);
      && Held(labels, now) && seen <= now
      && forall i :: 0 <= i < n && Archived(labels[k][i]) ==> labels[k][i] in now
    decreases n
  {
    if n == 0 {
      assert labels[k][..0] == [];
    } else {
      assert labels[k][..n][..n - 1] == labels[k][..n - 1];
      NoteAllMeaning(labels, k, seen, n - 1);
      var before, r := NoteAll(seen, labels[k][..n - 1], Archived), labels[k][n - 1];
      NoteMeaning(labels, k, before, r);
      hide Note, Held, Tracker, Archived;
    }
  }

  lemma {:induction false} NoteMeaning(labels: seq<Label>, k: nat, seen: seq<Row>, r: Row)
    requires Tracker(labels) && Held(labels, seen) && k < |labels| && r in labels[k]
    ensures var now := Note(seen, r, Archived);
      Held(labels, now) && seen <= now && (Archived(r) ==> r in now)
  {
    assert Listed(labels, r);
    if Archived(r) && Knows(seen, r.number) {
      var i :| 0 <= i < |seen| && seen[i].number == r.number;
      assert seen[i] in seen;
    }
  }

  // ----------------------------------------------------------------------- being outdone

  /** How many of `s` closed after `t`. */
  function Count(s: seq<Row>, t: int): nat {
    if s == [] then 0 else Count(s[..|s| - 1], t) + (if s[|s| - 1].closedAt > t then 1 else 0)
  }

  lemma {:induction false} CountAppends(a: seq<Row>, b: seq<Row>, t: int)
    ensures Count(a + b, t) == Count(a, t) + Count(b, t)
    decreases |b|
  {
    if b == [] {
      assert a + b == a;
    } else {
      assert (a + b)[..|a + b| - 1] == a + b[..|b| - 1];
      CountAppends(a, b[..|b| - 1], t);
    }
  }

  lemma {:induction false} CountBounds(s: seq<Row>, t: int)
    ensures Count(s, t) <= |s|
    ensures (forall i :: 0 <= i < |s| ==> s[i].closedAt > t) ==> Count(s, t) == |s|
    ensures (forall i :: 0 <= i < |s| ==> s[i].closedAt <= t) ==> Count(s, t) == 0
  {
    if s != [] {
      CountBounds(s[..|s| - 1], t);
    }
  }

  /** Taking one row out. */
  lemma {:induction false} CountWithout(b: seq<Row>, j: nat, t: int)
    requires j < |b|
    ensures multiset(b[..j] + b[j + 1..]) == multiset(b) - multiset{b[j]}
    ensures Count(b, t) == Count(b[..j] + b[j + 1..], t) + if b[j].closedAt > t then 1 else 0
  {
    assert b == b[..j] + [b[j]] + b[j + 1..];
    CountAppends(b[..j] + [b[j]], b[j + 1..], t);
    CountAppends(b[..j], [b[j]], t);
    CountAppends(b[..j], b[j + 1..], t);
    assert [b[j]][..0] == [] && Count([], t) == 0;
    assert Count([b[j]], t) == if b[j].closedAt > t then 1 else 0;
  }

  lemma {:induction false} CountIgnoresOrder(a: seq<Row>, b: seq<Row>, t: int)
    requires multiset(a) == multiset(b)
    ensures Count(a, t) == Count(b, t)
    decreases |a|
  {
    assert |a| == |multiset(a)| == |multiset(b)| == |b|;
    if a != [] {
      var n := |a| - 1;
      assert a[n] in multiset(b);
      var j :| 0 <= j < |b| && b[j] == a[n];
      CountWithout(b, j, t);
      CountWithout(a, n, t);
      assert a[..n] + a[n + 1..] == a[..n];
      hide Count;
      CountIgnoresOrder(a[..n], b[..j] + b[j + 1..], t);
    }
  }

  ghost predicate Descends(s: seq<Row>) { forall i, j :: 0 <= i < j < |s| ==> s[i].closedAt >= s[j].closedAt }

  lemma {:induction false} CountDescending(s: seq<Row>, t: int, n: nat)
    requires Descends(s) && n < |s|
    ensures s[n].closedAt > t <==> Count(s, t) > n
  {
    hide Count;
    var m := if s[n].closedAt > t then n + 1 else n;
    forall i
      ensures 0 <= i < m ==> m == n + 1 ==> s[i].closedAt > t
      ensures n <= i < |s| ==> m == n ==> s[i].closedAt <= t
    {
    }
    hide Descends;
    assert s == s[..m] + s[m..];
    CountAppends(s[..m], s[m..], t);
    CountBounds(s[..m], t);
    CountBounds(s[m..], t);
  }

  /** In closure order, those that closed after `t` come first, and are the first `Count` of them. */
  lemma {:induction false} CountInOrder(seen: seq<Row>, t: int, n: nat)
    requires n < |seen|
    ensures |Newest(seen)| == |seen|
    ensures Newest(seen)[n].closedAt > t <==> Count(seen, t) > n
  {
    NewestMeaning(seen);
    hide Newest, Count;
    CountIgnoresOrder(Newest(seen), seen, t);
    CountDescending(Newest(seen), t, n);
  }

  /** `x` is held, or thirty held closures are later than its own. */
  ghost predicate Covered(seen: seq<Row>, x: Row) { x in seen || Count(seen, x.closedAt) >= ARCHIVE_SIZE }

  lemma {:induction false} CoveredStays(seen: seq<Row>, now: seq<Row>, x: Row)
    requires Covered(seen, x) && seen <= now
    ensures Covered(now, x)
  {
    assert now == seen + now[|seen|..];
    CountAppends(seen, now[|seen|..], x.closedAt);
  }

  lemma {:induction false} UnreadIsOutdone(labels: seq<Label>, k: nat, pages: nat, seen: seq<Row>, i: nat)
    requires Tracker(labels) && k < |labels| && 0 < pages * PAGE <= i < |labels[k]|
    requires Enough(seen, labels[k][pages * PAGE - 1])
    ensures Covered(seen, labels[k][i])
  {
    var x, last := labels[k][i], labels[k][pages * PAGE - 1];
    assert x in labels[k] && x.closedAt <= x.updatedAt <= last.updatedAt;
    hide Tracker, Newest;
    CountInOrder(seen, x.closedAt, ARCHIVE_SIZE - 1);
  }

  /** Whatever a label's read left unread is outdone. */
  lemma {:induction false} LabelIsCovered(labels: seq<Label>, k: nat, seen0: seq<Row>, pages: nat, x: Row)
    requires Tracker(labels) && Held(labels, seen0) && k < |labels| && |labels[k]| <= MAX_PAGES * PAGE
    requires var seen := NoteAll(seen0, ReadTo(labels[k], pages), Archived); Stops(labels[k], pages, seen)
    requires x in labels[k] && Archived(x)
    ensures Covered(NoteAll(seen0, ReadTo(labels[k], pages), Archived), x)
  {
    var rows, n := labels[k], Min(pages * PAGE, |labels[k]|);
    NoteAllMeaning(labels, k, seen0, n);
    var i: nat :| i < |rows| && rows[i] == x;
    hide Tracker, Held, Archived, NoteAll, Enough;
    if i >= n {
      UnreadIsOutdone(labels, k, pages, NoteAll(seen0, ReadTo(rows, pages), Archived), i);
    }
  }

  // --------------------------------------------------------------------------- the archive

  ghost predicate AllCovered(labels: seq<Label>, k: nat, seen: seq<Row>)
    requires k <= |labels|
  {
    forall l, x | 0 <= l < k && x in labels[l] && Archived(x) :: Covered(seen, x)
  }

  /** `r` is a choice of the thirty newest closures among all that are listed, newest first. */
  ghost predicate NewestOf(labels: seq<Label>, r: seq<Row>) {
    && |r| <= ARCHIVE_SIZE && Held(labels, r)
    && (forall i, j :: 0 <= i < j < |r| ==> r[i].closedAt >= r[j].closedAt)
    && forall x | Listed(labels, x) && Archived(x) && x !in r ::
         |r| == ARCHIVE_SIZE && forall i :: 0 <= i < |r| ==> r[i].closedAt >= x.closedAt
  }

  lemma {:induction false} TopIsHeld(labels: seq<Label>, seen: seq<Row>, n: nat)
    requires Held(labels, seen) && n <= |Newest(seen)|
    ensures Held(labels, Newest(seen)[..n])
  {
    var s := Newest(seen);
    NewestMeaning(seen);
    hide Newest, Archived, Listed;
    assert forall r :: r in s[..n] ==> r in s;
    forall i, j | 0 <= i < j < n ensures s[i].number != s[j].number {
      if s[i].number == s[j].number {
        assert s[i] in seen && s[j] in seen;
        var a :| 0 <= a < |seen| && seen[a] == s[i];
        var b :| 0 <= b < |seen| && seen[b] == s[j];
        assert s[i] == s[j];
        CountedTwice(s, i, j);
        HeldOnce(seen, s[i]);
      }
    }
  }

  lemma {:induction false} HeldOnce(seen: seq<Row>, r: Row)
    requires Unrepeated(seen)
    ensures multiset(seen)[r] <= 1
  {
    if seen != [] {
      var n := |seen| - 1;
      assert seen == seen[..n] + [seen[n]];
      HeldOnce(seen[..n], r);
      if seen[n] == r {
        assert forall i :: 0 <= i < n ==> seen[i] != r;
        assert r !in seen[..n];
        assert r !in multiset(seen[..n]);
      }
    }
  }

  lemma {:induction false} TopIsNewest(labels: seq<Label>, seen: seq<Row>)
    requires Held(labels, seen) && AllCovered(labels, |labels|, seen)
    ensures Min(ARCHIVE_SIZE, |seen|) <= |Newest(seen)|
    ensures NewestOf(labels, Newest(seen)[..Min(ARCHIVE_SIZE, |seen|)])
  {
    var s, n := Newest(seen), Min(ARCHIVE_SIZE, |seen|);
    NewestMeaning(seen);
    TopIsHeld(labels, seen, n);
    hide Newest, Held;
    forall x | Listed(labels, x) && Archived(x) && x !in s[..n]
      ensures n == ARCHIVE_SIZE && forall i :: 0 <= i < n ==> s[i].closedAt >= x.closedAt
    {
      assert Covered(seen, x);
      LeftOut(seen, x, n);
    }
  }

  lemma {:induction false} LeftOut(seen: seq<Row>, x: Row, n: nat)
    requires Covered(seen, x) && n == Min(ARCHIVE_SIZE, |seen|)
    ensures |Newest(seen)| == |seen|
    ensures x !in Newest(seen)[..n] ==>
      n == ARCHIVE_SIZE && forall i :: 0 <= i < n ==> Newest(seen)[i].closedAt >= x.closedAt
  {
    var s := Newest(seen);
    NewestMeaning(seen);
    CountBounds(seen, x.closedAt);
    if x in seen {
      assert x in s;
      var i :| 0 <= i < |s| && s[i] == x;
      assert i < n ==> s[..n][i] == x;
    } else {
      CountInOrder(seen, x.closedAt, ARCHIVE_SIZE - 1);
    }
    hide Newest;
  }

  // ------------------------------------------------------------------- within the page limit

  /** What of every label the page limit lets a read see. */
  function Within(labels: seq<Label>): seq<Label> {
    seq(|labels|, k requires 0 <= k < |labels| => ReadTo(labels[k], MAX_PAGES))
  }

  lemma {:induction false} WithinMeaning(labels: seq<Label>)
    ensures forall x :: Listed(Within(labels), x) ==> Listed(labels, x)
    ensures Tracker(labels) ==> Tracker(Within(labels))
  {
    var cut := Within(labels);
    assert |cut| == |labels| && forall k :: 0 <= k < |cut| ==> cut[k] <= labels[k];
    hide Within, ReadTo, Tracker;
    forall k, x | 0 <= k < |cut| && x in cut[k] ensures x in labels[k] {
      PrefixHolds(cut[k], labels[k], x);
    }
    if Tracker(labels) {
      PrefixesTracked(labels, cut);
    }
  }

  lemma {:induction false} PrefixHolds(a: Label, b: Label, x: Row)
    requires a <= b && x in a
    ensures x in b
  {
    var i :| 0 <= i < |a| && a[i] == x;
    assert b[i] == x;
  }

  /** A tracker read part way keeps its promises. */
  lemma {:induction false} PrefixesTracked(labels: seq<Label>, cut: seq<Label>)
    requires Tracker(labels) && |cut| == |labels| && forall k :: 0 <= k < |cut| ==> cut[k] <= labels[k]
    requires forall k, x :: 0 <= k < |cut| && x in cut[k] ==> x in labels[k]
    ensures Tracker(cut)
  {
    forall k, l, x, y | 0 <= k < |cut| && 0 <= l < |cut| && x in cut[k] && y in cut[l]
      ensures x.number == y.number ==> x == y
    {
      assert x in labels[k] && y in labels[l];
    }
    forall k, i, j | 0 <= k < |cut| && 0 <= i < j < |cut[k]| ensures cut[k][i].updatedAt >= cut[k][j].updatedAt {
      assert labels[k][i].updatedAt >= labels[k][j].updatedAt;
    }
  }

  lemma {:induction false} WithinWhole(labels: seq<Label>)
    requires forall k :: 0 <= k < |labels| ==> |labels[k]| <= MAX_PAGES * PAGE
    ensures Within(labels) == labels
  {
    forall k | 0 <= k < |labels| ensures Within(labels)[k] == labels[k] {
      assert ReadTo(labels[k], MAX_PAGES) == labels[k];
    }
  }

  /** A read stops on a label where it would stop on what the limit lets it see. */
  lemma {:induction false} SameRead(rows: Label, pages: nat, seen: seq<Row>)
    requires pages <= MAX_PAGES && Stops(rows, pages, seen)
    ensures ReadTo(ReadTo(rows, MAX_PAGES), pages) == ReadTo(rows, pages)
    ensures Stops(ReadTo(rows, MAX_PAGES), pages, seen)
  {
    hide Enough;
  }

  /** An archived row past the page limit, and not before it under any label. */
  ghost predicate OutOfReach(labels: seq<Label>, x: Row) {
    Archived(x) && Listed(labels, x) && !Listed(Within(labels), x)
  }

  /** The newest closures within the limit are the newest of all exactly when there are thirty, and
      none out of reach closed after the last of them. */
  lemma {:induction false} NewestBeyondLimitIff(labels: seq<Label>, archive: seq<Row>)
    requires NewestOf(Within(labels), archive)
    ensures NewestOf(labels, archive) <==> forall x :: OutOfReach(labels, x) ==>
      |archive| == ARCHIVE_SIZE && archive[ARCHIVE_SIZE - 1].closedAt >= x.closedAt
  {
    WithinMeaning(labels);
    hide Within, Tracker, Listed, Unrepeated;
    forall x | OutOfReach(labels, x) ensures x !in archive {
      assert x in archive ==> Listed(Within(labels), x);
    }
  }

  /** A label that fits, or thirty archived rows within the limit closed after its last update there. */
  ghost predicate Settled(rows: Label) {
    || |rows| <= MAX_PAGES * PAGE
    || exists thirty: seq<Row> :: |thirty| == ARCHIVE_SIZE && Unrepeated(thirty) && ClosedLate(rows, thirty)
  }

  ghost predicate ClosedLate(rows: Label, thirty: seq<Row>)
    requires |rows| > MAX_PAGES * PAGE
  {
    forall r :: r in thirty ==>
      r in ReadTo(rows, MAX_PAGES) && Archived(r) && r.closedAt > rows[MAX_PAGES * PAGE - 1].updatedAt
  }

  lemma {:induction false} ThirtyLater(labels: seq<Label>, archive: seq<Row>, thirty: seq<Row>, t: int)
    requires NewestOf(labels, archive) && |thirty| == ARCHIVE_SIZE && Unrepeated(thirty)
    requires forall r :: r in thirty ==> Listed(labels, r) && Archived(r) && r.closedAt > t
    ensures |archive| == ARCHIVE_SIZE && archive[ARCHIVE_SIZE - 1].closedAt > t
  {
    var n := Min(ARCHIVE_SIZE - 1, |archive|);
    var j := SomebodyElse(thirty, archive[..n]);
    hide Unrepeated, Listed, Archived;
    assert thirty[j] in thirty;
    forall i | 0 <= i < n ensures archive[i] != thirty[j] {
      assert archive[..n][i] == archive[i];
    }
    if thirty[j] in archive {
      var i :| 0 <= i < |archive| && archive[i] == thirty[j];
    }
  }

  /** So a read is complete, whatever the labels' lengths, when each fits or settles in time. */
  lemma {:induction false} SettledLabelsAreEnough(labels: seq<Label>, archive: seq<Row>)
    requires Tracker(labels) && NewestOf(Within(labels), archive)
    requires forall k :: 0 <= k < |labels| ==> Settled(labels[k])
    ensures NewestOf(labels, archive)
  {
    NewestBeyondLimitIff(labels, archive);
    hide NewestOf, Unrepeated, Archived;
    forall x | OutOfReach(labels, x)
      ensures |archive| == ARCHIVE_SIZE && archive[ARCHIVE_SIZE - 1].closedAt >= x.closedAt
    {
      var k :| 0 <= k < |labels| && x in labels[k];
      BeyondLastPage(labels, k, x);
      var thirty: seq<Row> :| |thirty| == ARCHIVE_SIZE && Unrepeated(thirty) && ClosedLate(labels[k], thirty);
      forall r | r in thirty ensures Listed(Within(labels), r) {
        assert r in Within(labels)[k];
      }
      ThirtyLater(Within(labels), archive, thirty, labels[k][MAX_PAGES * PAGE - 1].updatedAt);
    }
  }

  lemma {:induction false} BeyondLastPage(labels: seq<Label>, k: nat, x: Row)
    requires Tracker(labels) && k < |labels| && x in labels[k] && OutOfReach(labels, x)
    ensures |labels[k]| > MAX_PAGES * PAGE && x.closedAt <= labels[k][MAX_PAGES * PAGE - 1].updatedAt
  {
    var rows, cut := labels[k], Within(labels)[k];
    assert x !in cut;
    forall j | 0 <= j < |cut| ensures rows[j] != x {
      assert cut[j] == rows[j];
    }
    var i: nat :| i < |rows| && rows[i] == x;
  }

  /** Without that a closure is missed: one past the limit, later than every one before it. */
  lemma {:induction false} LateClosureIsMissed(rows: Label, i: nat, archive: seq<Row>)
    requires MAX_PAGES * PAGE <= i < |rows| && Archived(rows[i])
    requires forall r :: r in ReadTo(rows, MAX_PAGES) && Archived(r) ==> r.closedAt < rows[i].closedAt
    requires NewestOf(Within([rows]), archive)
    ensures !NewestOf([rows], archive)
  {
    var labels, x := [rows], rows[i];
    assert x in labels[0] && Within(labels)[0] == ReadTo(rows, MAX_PAGES);
    assert forall r :: Listed(Within(labels), r) ==> r in ReadTo(rows, MAX_PAGES);
    assert OutOfReach(labels, x);
    NewestBeyondLimitIff(labels, archive);
    hide NewestOf, Unrepeated, Within, ReadTo, OutOfReach;
    if |archive| == ARCHIVE_SIZE {
      HeldIsListed(Within(labels), archive, ARCHIVE_SIZE - 1);
    }
  }

  lemma {:induction false} HeldIsListed(labels: seq<Label>, archive: seq<Row>, i: nat)
    requires NewestOf(labels, archive) && i < |archive|
    ensures Archived(archive[i]) && Listed(labels, archive[i]) && archive[i].closed && !archive[i].pull
  {
    hide Listed, Unrepeated;
    assert archive[i] in archive;
  }

  /** A thousand issues closed at 0 and touched at 2, then one closed at 1. */
  function LateRow(i: nat): Row {
    if i < 1000 then Row(i, false, true, 0, 2) else Row(i, false, true, 1, 1)
  }

  function LateLabel(): Label { seq(1001, i requires 0 <= i < 1001 => LateRow(i)) }

  /** Such a label: whatever a read within the limit returns is not the newest there is. */
  lemma {:induction false} LateLabelIsMissed(archive: seq<Row>)
    requires NewestOf(Within([LateLabel()]), archive)
    ensures Tracker([LateLabel()]) && !NewestOf([LateLabel()], archive)
  {
    var rows := LateLabel();
    LateLabelIsTracked();
    hide Tracker, NewestOf, Within;
    assert rows[1000].closedAt == 1;
    forall r | r in ReadTo(rows, MAX_PAGES) ensures r.closedAt == 0 {
      var i :| 0 <= i < 1000 && ReadTo(rows, MAX_PAGES)[i] == r;
    }
    LateClosureIsMissed(rows, 1000, archive);
  }

  lemma {:induction false} TrackedAlone(rows: Label)
    requires forall i, j :: 0 <= i < j < |rows| ==> rows[i].number != rows[j].number
    requires forall i, j :: 0 <= i < j < |rows| ==> rows[i].updatedAt >= rows[j].updatedAt
    requires forall i :: 0 <= i < |rows| ==> rows[i].closedAt <= rows[i].updatedAt
    ensures Tracker([rows])
  {
    forall x, y | x in rows && y in rows && x.number == y.number ensures x == y {
      var i :| 0 <= i < |rows| && rows[i] == x;
      var j :| 0 <= j < |rows| && rows[j] == y;
    }
    forall x | x in rows ensures x.closedAt <= x.updatedAt {
    }
    assert forall k :: 0 <= k < |[rows]| ==> [rows][k] == rows;
  }

  lemma {:induction false} LateLabelIsTracked()
    ensures Tracker([LateLabel()])
  {
    var rows := LateLabel();
    assert |rows| == 1001 && forall i :: 0 <= i < 1001 ==> rows[i] == LateRow(i);
    hide LateLabel;
    TrackedAlone(rows);
  }

  /** The early-stopped read returns the newest closures of whatever the page limit lets a read of
      every label see, on any tracker that keeps its promises: stopping early loses nothing. They are
      the newest of all when every label fits or settles within the limit. */
  method ReadArchive(labels: seq<Label>) returns (archive: seq<Row>)
    ensures |archive| <= 30
    ensures Tracker(labels) ==> NewestOf(Within(labels), archive)
    ensures Tracker(labels) ==> forall r :: r in archive ==> r.closed && !r.pull && Listed(labels, r)
    ensures Tracker(labels) && (forall k :: 0 <= k < |labels| ==> Settled(labels[k])) ==> NewestOf(labels, archive)
  {
    hide Held, Covered, Newest, NoteAll, Stops, Tracker, NewestOf, Settled;
    var seen: seq<Row> := [];
    ghost var cut := Within(labels);
    WithinMeaning(labels);
    NothingHeld(cut);
    for k := 0 to |labels|
      invariant Tracker(labels) ==> Held(cut, seen) && AllCovered(cut, k, seen)
    {
      ghost var before := seen;
      seen := ArchiveLabel(seen, labels[k]);
      if Tracker(labels) {
        ghost var pages: nat :| ReadSo(before, labels[k], pages, seen);
        SameRead(labels[k], pages, seen);
        OneMoreLabel(cut, k, before, pages);
      }
    }
    NewestMeaning(seen);
    archive := Newest(seen)[..Min(ARCHIVE_SIZE, |seen|)];
    if Tracker(labels) {
      TopIsNewest(cut, seen);
      forall r | r in archive ensures r.closed && !r.pull && Listed(labels, r) {
        var i :| 0 <= i < |archive| && archive[i] == r;
        HeldIsListed(cut, archive, i);
      }
    }
    if Tracker(labels) && forall k :: 0 <= k < |labels| ==> Settled(labels[k]) {
      SettledLabelsAreEnough(labels, archive);
    }
  }

  lemma {:induction false} NothingHeld(labels: seq<Label>)
    ensures Held(labels, []) && AllCovered(labels, 0, [])
  {
  }

  lemma {:induction false} OneMoreLabel(labels: seq<Label>, k: nat, seen0: seq<Row>, pages: nat)
    requires Tracker(labels) && Held(labels, seen0) && k < |labels| && |labels[k]| <= MAX_PAGES * PAGE
    requires AllCovered(labels, k, seen0)
    requires var seen := NoteAll(seen0, ReadTo(labels[k], pages), Archived); Stops(labels[k], pages, seen)
    ensures var seen := NoteAll(seen0, ReadTo(labels[k], pages), Archived);
      Held(labels, seen) && AllCovered(labels, k + 1, seen)
  {
    var seen := NoteAll(seen0, ReadTo(labels[k], pages), Archived);
    NoteAllMeaning(labels, k, seen0, Min(pages * PAGE, |labels[k]|));
    hide Tracker, Held, Stops, NoteAll, Covered, Archived;
    forall l, x | 0 <= l < k + 1 && x in labels[l] && Archived(x) ensures Covered(seen, x) {
      if l < k {
        CoveredStays(seen0, seen, x);
      } else {
        LabelIsCovered(labels, k, seen0, pages, x);
      }
    }
  }

  // ------------------------------------------------------------------- against reading it all

  /** Every page of the first `k` labels. */
  function ReadAll(labels: seq<Label>, k: nat): seq<Row>
    requires k <= |labels|
  {
    if k == 0 then [] else NoteAll(ReadAll(labels, k - 1), labels[k - 1], Archived)
  }

  function WholeArchive(labels: seq<Label>): seq<Row> {
    var s := Newest(ReadAll(labels, |labels|));
    s[..Min(ARCHIVE_SIZE, |s|)]
  }

  lemma {:induction false} ReadAllHolds(labels: seq<Label>, k: nat)
    requires Tracker(labels) && k <= |labels|
    ensures Held(labels, ReadAll(labels, k)) && AllCovered(labels, k, ReadAll(labels, k))
  {
    if k == 0 {
      NothingHeld(labels);
    } else {
      var before, rows := ReadAll(labels, k - 1), labels[k - 1];
      ReadAllHolds(labels, k - 1);
      assert rows[..|rows|] == rows;
      NoteAllMeaning(labels, k - 1, before, |rows|);
      var seen := ReadAll(labels, k);
      hide Tracker, Held, NoteAll, Archived, Covered;
      forall l, x | 0 <= l < k && x in labels[l] && Archived(x) ensures Covered(seen, x) {
        if l < k - 1 {
          CoveredStays(before, seen, x);
        } else {
          HeldIsCovered(seen, x);
        }
      }
    }
  }

  lemma {:induction false} HeldIsCovered(seen: seq<Row>, x: Row)
    requires x in seen
    ensures Covered(seen, x)
  {
  }

  lemma {:induction false} Pigeonhole(a: seq<Row>, b: seq<Row>)
    requires Unrepeated(a) && forall r :: r in a ==> r in b
    ensures |a| <= |b|
    decreases |a|
  {
    if a != [] {
      var n := |a| - 1;
      assert a[n] in b;
      var j :| 0 <= j < |b| && b[j] == a[n];
      var less := b[..j] + b[j + 1..];
      assert a == a[..n] + [a[n]];
      forall r | r in a[..n] ensures r in less {
        assert r in a && r in b;
        var k :| 0 <= k < |b| && b[k] == r;
        assert k != j;
        assert k < j ==> less[k] == r;
        assert k > j ==> less[k - 1] == r;
      }
      Pigeonhole(a[..n], less);
    }
  }

  lemma {:induction false} SomebodyElse(a: seq<Row>, b: seq<Row>) returns (j: nat)
    requires Unrepeated(a) && |a| > |b|
    ensures j < |a| && a[j] !in b
  {
    if forall i :: 0 <= i < |a| ==> a[i] in b {
      Pigeonhole(a, b);
    }
    j :| j < |a| && a[j] !in b;
  }

  lemma {:induction false} NoneNewer(labels: seq<Label>, a: seq<Row>, b: seq<Row>, i: nat)
    requires NewestOf(labels, a) && NewestOf(labels, b) && i < |a|
    ensures i < |b| && b[i].closedAt >= a[i].closedAt
  {
    var j := SomebodyElse(a[..i + 1], b[..Min(i, |b|)]);
    var x := a[j];
    assert x in a && x.closedAt >= a[i].closedAt;
    forall m | 0 <= m < Min(i, |b|) ensures b[m] != x {
      assert b[..Min(i, |b|)][m] == b[m];
    }
    hide Unrepeated, Archived, Listed;
    if x in b {
      var m :| 0 <= m < |b| && b[m] == x;
    }
  }

  /** Any two choices of the newest closures close at the same times. */
  lemma {:induction false} NewestTimesAreUnique(labels: seq<Label>, a: seq<Row>, b: seq<Row>)
    requires NewestOf(labels, a) && NewestOf(labels, b)
    ensures |a| == |b| && forall i :: 0 <= i < |a| ==> a[i].closedAt == b[i].closedAt
  {
    hide NewestOf;
    if |a| > 0 {
      NoneNewer(labels, a, b, |a| - 1);
    }
    if |b| > 0 {
      NoneNewer(labels, b, a, |b| - 1);
    }
    forall i | 0 <= i < |a| ensures a[i].closedAt == b[i].closedAt {
      NoneNewer(labels, a, b, i);
      NoneNewer(labels, b, a, i);
    }
  }

  /** Stopping early loses nothing: what the read returns closes at exactly the times reading every
      page of every label would give. */
  lemma {:induction false} SameAsReadingAll(labels: seq<Label>, archive: seq<Row>)
    requires Tracker(labels) && NewestOf(labels, archive)
    ensures var whole := WholeArchive(labels);
      |archive| == |whole| && forall i :: 0 <= i < |whole| ==> archive[i].closedAt == whole[i].closedAt
  {
    var seen := ReadAll(labels, |labels|);
    ReadAllHolds(labels, |labels|);
    TopIsNewest(labels, seen);
    NewestMeaning(seen);
    hide NewestOf, ReadAll, Newest, AllCovered, Held, Tracker;
    NewestTimesAreUnique(labels, archive, WholeArchive(labels));
  }

  // ---------------------------------------------------------------------------- the open list

  /** Every open action of the first `k` labels, as far as the page limit reads. */
  function ReadOpen(labels: seq<Label>, k: nat): seq<Row>
    requires k <= |labels|
  {
    if k == 0 then [] else NoteAll(ReadOpen(labels, k - 1), ReadTo(labels[k - 1], MAX_PAGES), Action)
  }

  method ReadLabel(seen0: seq<Row>, rows: Label) returns (seen: seq<Row>, exhausted: bool)
    ensures seen == NoteAll(seen0, ReadTo(rows, MAX_PAGES), Action)
    ensures exhausted == (|rows| >= MAX_PAGES * PAGE)
  {
    hide NoteAll;
    seen := seen0;
    assert ReadTo(rows, 0) == [];
    assert NoteAll(seen0, [], Action) == seen0 by {
      NothingNoted(seen0);
    }
    for p := 0 to MAX_PAGES
      invariant seen == NoteAll(seen0, ReadTo(rows, p), Action) && p * PAGE <= |rows|
    {
      var page := Page(rows, p);
      PageFollows(rows, p);
      NoteAllAppends(seen0, ReadTo(rows, p), page, Action);
      seen := AddPage(seen, page, Action);
      if |page| < PAGE {
        assert ReadTo(rows, p + 1) == ReadTo(rows, MAX_PAGES);
        return seen, false;
      }
    }
    exhausted := true;
  }

  lemma {:induction false} NothingNoted(seen: seq<Row>)
    ensures NoteAll(seen, [], Action) == seen
  {
  }

  lemma {:induction false} NoteAllHolds(seen: seq<Row>, rows: seq<Row>, wanted: Row -> bool)
    requires Unrepeated(seen)
    ensures var now := NoteAll(seen, rows, wanted);
      && Unrepeated(now) && seen <= now
      && (forall r :: r in now ==> r in seen || (r in rows && wanted(r)))
      && forall x :: x in rows && wanted(x) ==> Knows(now, x.number)
    decreases |rows|
  {
    if rows != [] {
      var n := |rows| - 1;
      NoteAllHolds(seen, rows[..n], wanted);
      assert rows == rows[..n] + [rows[n]];
      var before, now := NoteAll(seen, rows[..n], wanted), NoteAll(seen, rows, wanted);
      forall x | x in rows && wanted(x) ensures Knows(now, x.number) {
        if Knows(before, x.number) {
          var i :| 0 <= i < |before| && before[i].number == x.number;
          assert now[i] == before[i];
        } else {
          assert now[|before|] == x;
        }
      }
    }
  }

  /** Each action within the page limit, of whatever label, is held, and held once. */
  lemma {:induction false} ReadOpenMeaning(labels: seq<Label>, k: nat)
    requires k <= |labels|
    ensures var seen := ReadOpen(labels, k);
      && Unrepeated(seen)
      && (forall r :: r in seen ==> !r.pull && Listed(Within(labels), r))
      && forall l, x | 0 <= l < k && x in Within(labels)[l] && !x.pull :: Knows(seen, x.number)
    ensures k == |labels| ==>
      forall x :: Listed(Within(labels), x) && !x.pull ==> Knows(ReadOpen(labels, k), x.number)
  {
    if k > 0 {
      ReadOpenMeaning(labels, k - 1);
      var before, seen := ReadOpen(labels, k - 1), ReadOpen(labels, k);
      NoteAllHolds(before, ReadTo(labels[k - 1], MAX_PAGES), Action);
      assert Within(labels)[k - 1] == ReadTo(labels[k - 1], MAX_PAGES);
      hide NoteAll, Unrepeated, Within, ReadTo;
      forall n | Knows(before, n) ensures Knows(seen, n) {
        var i :| 0 <= i < |before| && before[i].number == n;
        assert seen[i] == before[i];
      }
      hide Knows;
    }
  }

  /** The open list, each action of it once, and whether it may be short: exactly when some label
      fills every page the limit allows, even if nothing was left behind. */
  method ReadActions(labels: seq<Label>) returns (seen: seq<Row>, truncated: bool)
    ensures seen == ReadOpen(labels, |labels|)
    ensures Unrepeated(seen) && forall r :: r in seen ==> !r.pull && Listed(labels, r)
    ensures forall x :: Listed(Within(labels), x) && !x.pull ==> Knows(seen, x.number)
    ensures !truncated ==> forall x :: Listed(labels, x) && !x.pull ==> Knows(seen, x.number)
    ensures truncated <==> exists k :: 0 <= k < |labels| && |labels[k]| >= MAX_PAGES * PAGE
  {
    hide NoteAll, Unrepeated, Within, Knows, Action, Tracker;
    seen, truncated := [], false;
    for k := 0 to |labels|
      invariant seen == ReadOpen(labels, k)
      invariant truncated <==> exists l :: 0 <= l < k && |labels[l]| >= MAX_PAGES * PAGE
    {
      var exhausted;
      seen, exhausted := ReadLabel(seen, labels[k]);
      truncated := truncated || exhausted;
    }
    ReadOpenMeaning(labels, |labels|);
    WithinMeaning(labels);
    if !truncated {
      WithinWhole(labels);
    }
  }
}
