/** Exactly when the order of the map can be seen in what aliases render
    (`console/index/graph.py:566-594`). */
module AliasExact {
  import opened Wrappers
  import opened Model
  import opened Passes
  import opened AliasOrder

  predicate Within(ids: seq<string>, rows: Rows) {
    && (forall id :: id in ids ==> id in rows)
    && forall i, j :: 0 <= i < j < |ids| ==> ids[i] != ids[j]
  }

  /** The pass over the aliases a listing meets. */
  function PassOver(ids: seq<string>, rows: Rows, reported: set<string>): Option<Rows>
    requires Within(ids, rows)
  {
    InheritAll(AliasPairs(ids, rows), rows, reported)
  }

  ghost predicate PassIgnoresOrder(rows: Rows, reported: set<string>) {
    forall p, q | Lists(p, rows) && Lists(q, rows) :: PassOver(p, rows, reported) == PassOver(q, rows, reported)
  }

  ghost predicate EveryOrderRaises(rows: Rows, reported: set<string>) {
    forall p | Lists(p, rows) :: PassOver(p, rows, reported) == None
  }

  // ------------------------------------------------------------------- listings in two parts

  lemma {:induction false} PairsSplit(p: seq<string>, q: seq<string>, rows: Rows)
    requires forall id :: id in p + q ==> id in rows
    ensures (forall id :: id in p ==> id in rows) && forall id :: id in q ==> id in rows
    ensures AliasPairs(p + q, rows) == AliasPairs(p, rows) + AliasPairs(q, rows)
  {
    assert forall id :: id in p || id in q ==> id in p + q;
    hide ParentOf;
    if q == [] {
      assert p + q == p;
    } else {
      var n := |q| - 1;
      assert (p + q)[..|p + q| - 1] == p + q[..n];
      PairsSplit(p, q[..n], rows);
    }
  }

  function Then(sofar: Option<Rows>, pairs: seq<Alias>, reported: set<string>): Option<Rows> {
    match sofar
    case None => None
    case Some(mid) => InheritAll(pairs, mid, reported)
  }

  lemma {:induction false} PassSplit(p: seq<Alias>, q: seq<Alias>, rows: Rows, reported: set<string>)
    ensures InheritAll(p + q, rows, reported) == Then(InheritAll(p, rows, reported), q, reported)
  {
    hide InheritOne;
    if q == [] {
      assert p + q == p;
    } else {
      var n := |q| - 1;
      assert (p + q)[..|p + q| - 1] == p + q[..n];
      PassSplit(p, q[..n], rows, reported);
    }
  }

  /** What no pair writes is as it was, and no pass touches a kind or a credit. */
  lemma {:induction false} PassKeeps(pairs: seq<Alias>, rows: Rows, mid: Rows, reported: set<string>, id: string)
    requires mid.Keys == rows.Keys && id in rows && InheritAll(pairs, mid, reported).Some?
    ensures var out := InheritAll(pairs, mid, reported).value;
      && out.Keys == rows.Keys
      && out[id].kind == mid[id].kind && out[id].fieldSources == mid[id].fieldSources
      && (Unwritten(Among(pairs), rows, reported, id) ==> out[id] == mid[id])
  {
    if pairs != [] {
      var n := |pairs| - 1;
      var a := pairs[n];
      assert pairs == pairs[..n] + [a];
      assert Among(pairs) == Among(pairs[..n]) + {a};
      PassKeeps(pairs[..n], rows, mid, reported, id);
      var sofar := InheritAll(pairs[..n], mid, reported).value;
      SameKeysSameFollower(a, rows, sofar, reported);
      if Unwritten(Among(pairs), rows, reported, id) {
        FewerUnwritten(Among(pairs[..n]), a, rows, reported, id);
      }
      hide Unwritten, WellFormed;
    }
  }

  lemma {:induction false} ListingOf(keys: set<string>) returns (ids: seq<string>)
    ensures (forall id :: id in ids <==> id in keys) && forall i, j :: 0 <= i < j < |ids| ==> ids[i] != ids[j]
    decreases |keys|
  {
    if keys == {} {
      ids := [];
    } else {
      var id :| id in keys;
      ids := ListingOf(keys - {id});
      ids := ids + [id];
    }
  }

  lemma {:induction false} Joined(p: seq<string>, q: seq<string>, rows: Rows)
    requires Within(p, rows) && Within(q, rows) && forall id :: id in p ==> id !in q
    ensures Within(p + q, rows)
  {
    forall i, j | 0 <= i < j < |p + q| ensures (p + q)[i] != (p + q)[j] {
      assert i < |p| ==> (p + q)[i] in p;
      assert j >= |p| ==> (p + q)[j] in q;
    }
  }

  /** Any listing of some rows goes on to a listing of all; what it decides for `id` stands when
      nobody after it writes `id`. */
  lemma {:induction false} GoOn(front: seq<string>, rows: Rows, reported: set<string>, id: string)
    returns (p: seq<string>)
    requires Within(front, rows) && id in rows
    ensures Lists(p, rows) && Within(p, rows)
    ensures PassOver(p, rows, reported).Some? ==> PassOver(front, rows, reported).Some?
    ensures PassOver(p, rows, reported).Some? && WrittenIn(front, rows, reported, id) ==>
      var start, out := PassOver(front, rows, reported).value, PassOver(p, rows, reported).value;
      id in start && id in out && out[id] == start[id]
  {
    var rest := ListingOf(rows.Keys - set x | x in front);
    Joined(front, rest, rows);
    p := front + rest;
    assert Lists(p, rows);
    PairsSplit(front, rest, rows);
    PassSplit(AliasPairs(front, rows), AliasPairs(rest, rows), rows, reported);
    if PassOver(p, rows, reported).Some? {
      var start := PassOver(front, rows, reported).value;
      PassKeeps(AliasPairs(front, rows), rows, rows, reported, id);
      if WrittenIn(front, rows, reported, id) {
        RestWritesElsewhere(front, rest, rows, reported, id);
        PassKeeps(AliasPairs(rest, rows), rows, start, reported, id);
      }
    }
  }

  /** Every alias that writes `id` is listed in `front`. */
  ghost predicate WrittenIn(front: seq<string>, rows: Rows, reported: set<string>, id: string) {
    forall a :: a in AliasesOf(rows) && Writes(a, rows, reported, id) ==> a.id in front
  }

  predicate Writes(a: Alias, rows: Rows, reported: set<string>, id: string) {
    Acts(a, rows, reported) && To(a, rows, reported) == id
  }

  lemma {:induction false} RestWritesElsewhere(
    front: seq<string>, rest: seq<string>, rows: Rows, reported: set<string>, id: string)
    requires Within(rest, rows) && (forall x :: x in front ==> x !in rest) && WrittenIn(front, rows, reported, id)
    ensures Unwritten(Among(AliasPairs(rest, rows)), rows, reported, id)
  {
    PairsOfPart(rest, rows);
    hide To, Acts, ParentOf, AliasPairs;
    forall a | a in AliasPairs(rest, rows) && Acts(a, rows, reported) ensures To(a, rows, reported) != id {
      assert a in AliasesOf(rows);
      assert Writes(a, rows, reported, id) ==> a.id in front;
    }
  }

  // ----------------------------------------------------------------- the last of the writers

  lemma {:induction false} OnePair(b: Alias, rows: Rows)
    requires b in AliasesOf(rows)
    ensures b.id in rows && AliasPairs([b.id], rows) == [b]
  {
    assert [b.id][..0] == [];
    hide ParentOf;
  }

  /** `x` is declared an alias, and that writes `id`. */
  predicate Writer(x: string, rows: Rows, reported: set<string>, id: string) {
    x in rows && ParentOf(rows[x]) != "" && Writes(Alias(x, ParentOf(rows[x])), rows, reported, id)
  }

  /** The identifiers whose aliases write `id`, but for `skip`. */
  lemma {:induction false} OtherWriters(rows: Rows, reported: set<string>, id: string, skip: set<string>)
    returns (ws: seq<string>)
    ensures Within(ws, rows) && forall x :: x in ws ==> x !in skip && Writer(x, rows, reported, id)
    ensures forall a :: a in AliasesOf(rows) && Writes(a, rows, reported, id) ==> a.id in ws || a.id in skip
  {
    hide ParentOf, Writes;
    ws := ListingOf(set x | x in rows && x !in skip && Writer(x, rows, reported, id));
  }

  /** `first` writes something else. */
  ghost predicate WritesNot(first: seq<string>, rows: Rows, reported: set<string>, id: string)
    requires Within(first, rows)
  {
    forall a :: a in AliasPairs(first, rows) ==> !Writes(a, rows, reported, id)
  }

  lemma {:induction false} WritersListed(ws: seq<string>, rows: Rows, reported: set<string>, id: string, other: string)
    requires Within(ws, rows) && forall x :: x in ws ==> Writer(x, rows, reported, id)
    requires id != other
    ensures Unwritten(Among(AliasPairs(ws, rows)), rows, reported, other)
  {
    PairsOfPart(ws, rows);
    hide ParentOf, AliasPairs;
  }

  lemma {:induction false} Apart(first: seq<string>, ws: seq<string>, rows: Rows, reported: set<string>, id: string)
    requires Within(first, rows) && WritesNot(first, rows, reported, id)
    requires Within(ws, rows) && forall x :: x in ws ==> Writer(x, rows, reported, id)
    ensures forall x :: x in first ==> x !in ws
  {
    PairsOfPart(first, rows);
    hide ParentOf, AliasPairs, Writes;
    forall x | x in first ensures !Writer(x, rows, reported, id) {
      if ParentOf(rows[x]) != "" {
        assert Alias(x, ParentOf(rows[x])) in AliasPairs(first, rows);
      }
    }
  }

  predicate Renders(e: Entity, other: Entity) {
    e.state == other.state && e.provenance.asOf == EffectiveAsOf(other)
  }

  lemma {:induction false} PairRenders(b: Alias, rows: Rows, mid: Rows, reported: set<string>)
    requires mid.Keys == rows.Keys && Acts(b, rows, reported) && InheritOne(b, mid, reported).Some?
    ensures var out := InheritOne(b, mid, reported).value;
      To(b, rows, reported) in out && Renders(out[To(b, rows, reported)], mid[Source(b, rows, reported)])
  {
    SameKeysSameFollower(b, rows, mid, reported);
    hide EffectiveAsOf, WellFormed;
  }

  /** A listing in which `first` comes first and, of those that write the row `b` writes, `b` comes
      last: the row renders what `b` reads once `first` is through. */
  lemma {:induction false} LastWriterRenders(first: seq<string>, b: Alias, rows: Rows, reported: set<string>)
    returns (p: seq<string>)
    requires b in AliasesOf(rows) && Acts(b, rows, reported) && !OfItself(b)
    requires Within(first, rows) && b.id !in first && WritesNot(first, rows, reported, To(b, rows, reported))
    ensures Lists(p, rows) && Within(p, rows)
    ensures PassOver(p, rows, reported).Some? ==> PassOver(first, rows, reported).Some?
    ensures PassOver(p, rows, reported).Some? ==>
      var start, out := PassOver(first, rows, reported).value, PassOver(p, rows, reported).value;
      To(b, rows, reported) in out && Source(b, rows, reported) in start
      && Renders(out[To(b, rows, reported)], start[Source(b, rows, reported)])
  {
    var to, from := To(b, rows, reported), Source(b, rows, reported);
    assert to != from;
    var ws := OtherWriters(rows, reported, to, {b.id});
    Apart(first, ws, rows, reported, to);
    Joined(first, ws, rows);
    WritersListed(ws, rows, reported, to, from);
    OnePair(b, rows);
    hide To, Source, Acts, AliasesOf, Renders, ParentOf;
    Joined(first + ws, [b.id], rows);
    var front := first + ws + [b.id];
    PairsSplit(first + ws, [b.id], rows);
    PairsSplit(first, ws, rows);
    assert WrittenIn(front, rows, reported, to);
    hide WrittenIn, OfItself, Writes;
    p := GoOn(front, rows, reported, to);
    if PassOver(p, rows, reported).Some? {
      ThreeParts(AliasPairs(first, rows), AliasPairs(ws, rows), b, rows, reported);
      var start := InheritAll(AliasPairs(first, rows), rows, reported).value;
      PassKeeps(AliasPairs(first, rows), rows, rows, reported, from);
      PassKeeps(AliasPairs(ws, rows), rows, start, reported, from);
      PairRenders(b, rows, InheritAll(AliasPairs(ws, rows), start, reported).value, reported);
    }
  }

  lemma {:induction false} ThreeParts(p: seq<Alias>, q: seq<Alias>, b: Alias, rows: Rows, reported: set<string>)
    requires InheritAll(p + q + [b], rows, reported).Some?
    ensures InheritAll(p, rows, reported).Some?
    ensures var start := InheritAll(p, rows, reported).value;
      && InheritAll(q, start, reported).Some?
      && InheritAll(p + q + [b], rows, reported) == InheritOne(b, InheritAll(q, start, reported).value, reported)
  {
    PassSplit(p, q, rows, reported);
    assert (p + q + [b])[..|p + q|] == p + q;
    hide InheritOne;
  }

  // ------------------------------------------------------------------------ the exact condition

  ghost predicate NeverRaises(rows: Rows, reported: set<string>) {
    forall p | Lists(p, rows) && Within(p, rows) :: PassOver(p, rows, reported).Some?
  }

  lemma {:induction false} OneResult(rows: Rows, reported: set<string>)
    requires PassIgnoresOrder(rows, reported) && !EveryOrderRaises(rows, reported)
    ensures NeverRaises(rows, reported)
  {
    hide PassOver;
    var p :| Lists(p, rows) && PassOver(p, rows, reported) != None;
    forall q | Lists(q, rows) && Within(q, rows) ensures PassOver(q, rows, reported).Some? {
      assert PassOver(q, rows, reported) == PassOver(p, rows, reported);
    }
  }

  lemma {:induction false} NothingFirst(rows: Rows, reported: set<string>, id: string)
    ensures Within([], rows) && PassOver([], rows, reported) == Some(rows) && WritesNot([], rows, reported, id)
  {
  }

  /** Two that write one row, neither an alias of itself. */
  lemma {:induction false} WritersReadAlike(a: Alias, b: Alias, rows: Rows, reported: set<string>)
    requires PassIgnoresOrder(rows, reported) && NeverRaises(rows, reported)
    requires a in AliasesOf(rows) && b in AliasesOf(rows) && Acts(a, rows, reported) && Acts(b, rows, reported)
    requires !OfItself(a) && !OfItself(b) && To(a, rows, reported) == To(b, rows, reported)
    ensures ReadsAlike(rows[Source(a, rows, reported)], rows[Source(b, rows, reported)])
  {
    NothingFirst(rows, reported, To(a, rows, reported));
    hide To, Source, Acts, AliasesOf, PassOver, WritesNot, EffectiveAsOf;
    var p := LastWriterRenders([], a, rows, reported);
    var q := LastWriterRenders([], b, rows, reported);
    assert PassOver(p, rows, reported) == PassOver(q, rows, reported);
  }

  lemma {:induction false} OnePairFirst(a: Alias, rows: Rows, reported: set<string>)
    requires a in AliasesOf(rows) && Acts(a, rows, reported)
    ensures Within([a.id], rows) && PassOver([a.id], rows, reported) == InheritOne(a, rows, reported)
    ensures PassOver([a.id], rows, reported).Some? ==>
      var out := PassOver([a.id], rows, reported).value;
      && WellFormed(Written(a, rows, reported))
      && To(a, rows, reported) in out && out[To(a, rows, reported)] == Written(a, rows, reported)
    ensures forall id :: id != To(a, rows, reported) ==> WritesNot([a.id], rows, reported, id)
  {
    OnePair(a, rows);
    assert InheritAll([], rows, reported) == Some(rows);
    assert [a][..0] == [];
    hide Inherit, WellFormed, AliasesOf;
  }

  /** What one writes and another, no alias of itself, reads. */
  lemma {:induction false} ReadAsBefore(a: Alias, b: Alias, rows: Rows, reported: set<string>)
    requires PassIgnoresOrder(rows, reported) && NeverRaises(rows, reported)
    requires a in AliasesOf(rows) && b in AliasesOf(rows) && Acts(a, rows, reported) && Acts(b, rows, reported)
    requires !OfItself(a) && !OfItself(b) && To(a, rows, reported) == Source(b, rows, reported)
    ensures ReadsAlike(Written(a, rows, reported), rows[Source(b, rows, reported)])
  {
    NothingFirst(rows, reported, To(b, rows, reported));
    OnePairFirst(a, rows, reported);
    assert To(b, rows, reported) != Source(b, rows, reported);
    assert a.id != b.id;
    hide To, Source, Acts, AliasesOf, PassOver, WritesNot, EffectiveAsOf, Written;
    var p := LastWriterRenders([], b, rows, reported);
    var q := LastWriterRenders([a.id], b, rows, reported);
    assert PassOver(p, rows, reported) == PassOver(q, rows, reported);
  }

  /** A row's alias of itself, after another that wrote the row. */
  lemma {:induction false} OwnAliasRereads(a: Alias, b: Alias, rows: Rows, reported: set<string>)
    requires PassIgnoresOrder(rows, reported) && NeverRaises(rows, reported)
    requires a in AliasesOf(rows) && b in AliasesOf(rows) && Acts(a, rows, reported) && Acts(b, rows, reported)
    requires !OfItself(a) && OfItself(b) && To(a, rows, reported) == To(b, rows, reported)
    ensures Rereads(a, rows, reported)
  {
    var to := To(a, rows, reported);
    NothingFirst(rows, reported, to);
    OnePairFirst(b, rows, reported);
    var p := LastWriterRenders([], a, rows, reported);
    var q := OwnAliasLast(a, b, rows, reported);
    var r := GoOn([b.id], rows, reported, to);
    hide AliasesOf, PassOver, WritesNot, Lists, EffectiveAsOf;
    assert PassOver(p, rows, reported) == PassOver(q, rows, reported);
    assert PassOver(r, rows, reported).Some?;
  }

  /** A listing in which, of those that write a row, its alias of itself comes last and `a` before. */
  lemma {:induction false} OwnAliasLast(a: Alias, b: Alias, rows: Rows, reported: set<string>) returns (p: seq<string>)
    requires a in AliasesOf(rows) && b in AliasesOf(rows) && Acts(a, rows, reported) && Acts(b, rows, reported)
    requires !OfItself(a) && OfItself(b) && To(a, rows, reported) == To(b, rows, reported)
    ensures Lists(p, rows) && Within(p, rows)
    ensures PassOver(p, rows, reported).Some? ==>
      var out := PassOver(p, rows, reported).value;
      To(b, rows, reported) in out && Renders(out[To(b, rows, reported)], Written(a, rows, reported))
  {
    var to, from := To(a, rows, reported), Source(a, rows, reported);
    assert to != from && Source(b, rows, reported) == to;
    var ws := OtherWriters(rows, reported, to, {a.id, b.id});
    WritersListed(ws, rows, reported, to, from);
    OnePair(a, rows);
    OnePair(b, rows);
    assert a.id != b.id;
    hide To, Source, Acts, AliasesOf, Renders, ParentOf, Written, Writer;
    Joined(ws, [a.id], rows);
    Joined(ws + [a.id], [b.id], rows);
    var front := ws + [a.id] + [b.id];
    PairsSplit(ws + [a.id], [b.id], rows);
    PairsSplit(ws, [a.id], rows);
    assert WrittenIn(front, rows, reported, to);
    hide WrittenIn, OfItself, Writes, Within, AliasPairs;
    p := GoOn(front, rows, reported, to);
    if PassOver(p, rows, reported).Some? {
      OwnAliasAfter(AliasPairs(ws, rows), a, b, rows, reported);
    }
  }

  lemma {:induction false} OwnAliasAfter(pairs: seq<Alias>, a: Alias, b: Alias, rows: Rows, reported: set<string>)
    requires Acts(a, rows, reported) && Acts(b, rows, reported)
    requires Source(b, rows, reported) == To(b, rows, reported) == To(a, rows, reported)
    requires Unwritten(Among(pairs), rows, reported, Source(a, rows, reported))
    requires InheritAll(pairs + [a] + [b], rows, reported).Some?
    ensures var out := InheritAll(pairs + [a] + [b], rows, reported).value;
      To(b, rows, reported) in out && Renders(out[To(b, rows, reported)], Written(a, rows, reported))
  {
    var to, from := To(a, rows, reported), Source(a, rows, reported);
    hide To, Source, Acts, Renders, Written, Unwritten, InheritOne;
    ThreeParts(pairs, [a], b, rows, reported);
    var start := InheritAll(pairs, rows, reported).value;
    PassKeeps(pairs, rows, rows, reported, from);
    PassKeeps(pairs, rows, rows, reported, to);
    assert [a][..0] == [] && InheritAll([], start, reported) == Some(start);
    assert InheritAll([a], start, reported) == InheritOne(a, start, reported);
    hide InheritAll, Among;
    var mid := InheritOne(a, start, reported).value;
    WrittenReads(a, rows, start, reported);
    PairRenders(b, rows, mid, reported);
    SameRendering(mid[to], Written(a, rows, reported), InheritOne(b, mid, reported).value[to]);
  }

  lemma {:induction false} SameRendering(e: Entity, f: Entity, out: Entity)
    requires ReadsAlike(e, f) && Renders(out, e)
    ensures Renders(out, f)
  {
  }

  /** What `a` writes reads the same whoever wrote the row before it. */
  lemma {:induction false} WrittenReads(a: Alias, rows: Rows, mid: Rows, reported: set<string>)
    requires mid.Keys == rows.Keys && Acts(a, rows, reported) && InheritOne(a, mid, reported).Some?
    requires mid[Source(a, rows, reported)] == rows[Source(a, rows, reported)]
    requires mid[To(a, rows, reported)].fieldSources == rows[To(a, rows, reported)].fieldSources
    ensures InheritOne(a, mid, reported).value.Keys == rows.Keys
    ensures ReadsAlike(InheritOne(a, mid, reported).value[To(a, rows, reported)], Written(a, rows, reported))
  {
    SameKeysSameFollower(a, rows, mid, reported);
    hide WellFormed;
  }

  lemma {:induction false} OrderFreeIsQuiet(rows: Rows, reported: set<string>)
    requires PassIgnoresOrder(rows, reported) && NeverRaises(rows, reported)
    ensures Quiet(AliasesOf(rows), rows, reported)
  {
    forall a, b | a in AliasesOf(rows) && b in AliasesOf(rows) && Acts(a, rows, reported) && Acts(b, rows, reported)
      ensures Compatible(a, b, rows, reported)
    {
      hide To, Source, Acts, AliasesOf, Written, ReadsAlike, Rereads, PassIgnoresOrder, NeverRaises, OfItself;
      if !OfItself(a) && To(a, rows, reported) == To(b, rows, reported) {
        if OfItself(b) {
          OwnAliasRereads(a, b, rows, reported);
        } else {
          WritersReadAlike(a, b, rows, reported);
        }
      }
      if !OfItself(a) && !OfItself(b) && To(a, rows, reported) == Source(b, rows, reported) {
        ReadAsBefore(a, b, rows, reported);
      }
    }
  }

  /** The map's order is invisible exactly when the pass raises in every order, or no alias competes
      with another: those who write one row read alike, and what is written reads as before. */
  lemma {:induction false} AliasPassIgnoresOrderIff(rows: Rows, reported: set<string>)
    ensures PassIgnoresOrder(rows, reported) <==>
      EveryOrderRaises(rows, reported) || Quiet(AliasesOf(rows), rows, reported)
  {
    hide Quiet, AliasesOf;
    if Quiet(AliasesOf(rows), rows, reported) {
      forall p, q | Lists(p, rows) && Lists(q, rows)
        ensures PassOver(p, rows, reported) == PassOver(q, rows, reported)
      {
        AliasPassIgnoresOrder(p, q, rows, reported);
      }
    } else if PassIgnoresOrder(rows, reported) && !EveryOrderRaises(rows, reported) {
      OneResult(rows, reported);
      OrderFreeIsQuiet(rows, reported);
    }
  }

  // ---------------------------------------------------------------- when nothing can raise

  /** Every row an alias reads is in one of the fifteen states. */
  ghost predicate KnownSources(pairs: set<Alias>, rows: Rows, reported: set<string>) {
    forall a :: a in pairs && Acts(a, rows, reported) ==> rows[Source(a, rows, reported)].state.Known?
  }

  lemma {:induction false} KnownStaysKnown(pairs: seq<Alias>, rows: Rows, reported: set<string>)
    requires KnownSources(Among(pairs), rows, reported)
    ensures var out := InheritAll(pairs, rows, reported);
      && out.Some? && out.value.Keys == rows.Keys
      && forall id :: id in rows && rows[id].state.Known? ==> out.value[id].state.Known?
  {
    if pairs != [] {
      var n := |pairs| - 1;
      assert pairs == pairs[..n] + [pairs[n]];
      assert Among(pairs) == Among(pairs[..n]) + {pairs[n]};
      hide EffectiveAsOf;
      KnownStaysKnown(pairs[..n], rows, reported);
      var sofar := InheritAll(pairs[..n], rows, reported).value;
      SameKeysSameFollower(pairs[n], rows, sofar, reported);
    }
  }

  /** Then the map's order is invisible exactly when no alias competes with another. */
  lemma {:induction false} KnownAliasesIgnoreOrderIff(rows: Rows, reported: set<string>)
    requires KnownSources(AliasesOf(rows), rows, reported)
    ensures PassIgnoresOrder(rows, reported) <==> Quiet(AliasesOf(rows), rows, reported)
  {
    AliasPassIgnoresOrderIff(rows, reported);
    var p := ListingOf(rows.Keys);
    PairsOf(p, rows);
    hide Quiet, AliasesOf, KnownSources, PassIgnoresOrder, AliasPairs, InheritAll, Among;
    KnownStaysKnown(AliasPairs(p, rows), rows, reported);
    assert PassOver(p, rows, reported).Some?;
  }

  // --------------------------------------------------------------------------- without chains

  /** No row that is written is read. */
  ghost predicate NoChains(pairs: set<Alias>, rows: Rows, reported: set<string>) {
    forall a, b | a in pairs && b in pairs && Acts(a, rows, reported) && Acts(b, rows, reported) ::
      To(a, rows, reported) != Source(b, rows, reported)
  }

  ghost predicate WritersAgree(pairs: set<Alias>, rows: Rows, reported: set<string>) {
    forall a, b | a in pairs && b in pairs && Acts(a, rows, reported) && Acts(b, rows, reported)
        && To(a, rows, reported) == To(b, rows, reported) ::
      ReadsAlike(rows[Source(a, rows, reported)], rows[Source(b, rows, reported)])
  }

  ghost predicate SomeRaises(pairs: set<Alias>, rows: Rows, reported: set<string>) {
    exists a :: a in pairs && Raises(a, rows, reported)
  }

  /** One pair's turn, the row it reads being as it was. */
  lemma {:induction false} RaisesInTurn(a: Alias, rows: Rows, mid: Rows, reported: set<string>)
    requires mid.Keys == rows.Keys
    requires Acts(a, rows, reported) ==> mid[Source(a, rows, reported)] == rows[Source(a, rows, reported)]
    requires Acts(a, rows, reported) ==> mid[To(a, rows, reported)].kind == rows[To(a, rows, reported)].kind
    ensures InheritOne(a, mid, reported) == None <==> Raises(a, rows, reported)
  {
    SameKeysSameFollower(a, rows, mid, reported);
  }

  lemma {:induction false} ChainlessRaises(pairs: seq<Alias>, rows: Rows, reported: set<string>)
    requires NoChains(Among(pairs), rows, reported)
    ensures InheritAll(pairs, rows, reported) == None <==> SomeRaises(Among(pairs), rows, reported)
  {
    if pairs != [] {
      var n := |pairs| - 1;
      var a := pairs[n];
      assert pairs == pairs[..n] + [a];
      assert Among(pairs) == Among(pairs[..n]) + {a};
      hide To, Source, Acts, Raises, InheritOne;
      ChainlessRaises(pairs[..n], rows, reported);
      if InheritAll(pairs[..n], rows, reported).Some? {
        if Acts(a, rows, reported) {
          PassKeeps(pairs[..n], rows, rows, reported, Source(a, rows, reported));
          PassKeeps(pairs[..n], rows, rows, reported, To(a, rows, reported));
          assert Unwritten(Among(pairs[..n]), rows, reported, Source(a, rows, reported));
        }
        PassKeys(pairs[..n], rows, reported);
        RaisesInTurn(a, rows, InheritAll(pairs[..n], rows, reported).value, reported);
      }
    }
  }

  lemma {:induction false} PassKeys(pairs: seq<Alias>, rows: Rows, reported: set<string>)
    requires InheritAll(pairs, rows, reported).Some?
    ensures InheritAll(pairs, rows, reported).value.Keys == rows.Keys
  {
    if pairs != [] {
      PassKeys(pairs[..|pairs| - 1], rows, reported);
    }
  }

  lemma {:induction false} ChainlessQuiet(pairs: set<Alias>, rows: Rows, reported: set<string>)
    requires NoChains(pairs, rows, reported)
    ensures Quiet(pairs, rows, reported) <==> WritersAgree(pairs, rows, reported)
  {
    forall a | a in pairs && Acts(a, rows, reported) ensures !OfItself(a) {
      assert To(a, rows, reported) != Source(a, rows, reported);
    }
    hide To, Source, Acts, Written, ReadsAlike, OfItself, Rereads;
    if Quiet(pairs, rows, reported) {
      forall a, b | a in pairs && b in pairs && Acts(a, rows, reported) && Acts(b, rows, reported)
        && To(a, rows, reported) == To(b, rows, reported)
        ensures ReadsAlike(rows[Source(a, rows, reported)], rows[Source(b, rows, reported)])
      {
        assert Compatible(a, b, rows, reported);
      }
    }
  }

  /** Where no alias chains through another, the map's order is invisible exactly when a pair
      raises, or all who write one row would have it render the same. */
  lemma {:induction false} ChainlessAliasesIgnoreOrderIff(rows: Rows, reported: set<string>)
    requires NoChains(AliasesOf(rows), rows, reported)
    ensures PassIgnoresOrder(rows, reported) <==>
      SomeRaises(AliasesOf(rows), rows, reported) || WritersAgree(AliasesOf(rows), rows, reported)
  {
    AliasPassIgnoresOrderIff(rows, reported);
    ChainlessQuiet(AliasesOf(rows), rows, reported);
    hide Quiet, AliasesOf, NoChains, WritersAgree, PassIgnoresOrder, SomeRaises, PassOver;
    var some := ListingOf(rows.Keys);
    forall p | Lists(p, rows)
      ensures PassOver(p, rows, reported) == None <==> SomeRaises(AliasesOf(rows), rows, reported)
    {
      ChainlessListing(p, rows, reported);
    }
    assert Lists(some, rows);
  }

  lemma {:induction false} ChainlessListing(p: seq<string>, rows: Rows, reported: set<string>)
    requires Lists(p, rows) && NoChains(AliasesOf(rows), rows, reported)
    ensures PassOver(p, rows, reported) == None <==> SomeRaises(AliasesOf(rows), rows, reported)
  {
    PairsOf(p, rows);
    hide AliasesOf, NoChains, SomeRaises, AliasPairs, InheritAll, Among;
    ChainlessRaises(AliasPairs(p, rows), rows, reported);
  }

  // --------------------------------------------------------------------------- and with them

  /** `c` is declared an alias of `b`, and `b` of `a`, which alone has a report of its own. */
  ghost predicate Chain(rows: Rows, reported: set<string>, a: string, b: string, c: string) {
    && a != b && b != c && c != a && rows.Keys == {a, b, c} && reported == {a} && a != "" && b != ""
    && ParentOf(rows[a]) == "" && ParentOf(rows[b]) == a && ParentOf(rows[c]) == b
    && rows[a].state.Known? && rows[b].state.Known?
  }

  lemma {:induction false} NoPair(id: string, rows: Rows)
    requires id in rows && ParentOf(rows[id]) == ""
    ensures AliasPairs([id], rows) == []
  {
    assert [id][..0] == [];
    hide ParentOf;
  }

  /** Two aliases and one that is none, in the order listed. */
  lemma {:induction false} ThreeListed(x: Alias, y: Alias, z: string, rows: Rows)
    requires x in AliasesOf(rows) && y in AliasesOf(rows) && z in rows && ParentOf(rows[z]) == ""
    ensures x.id in rows && y.id in rows && AliasPairs([x.id, y.id, z], rows) == [x, y]
  {
    OnePair(x, rows);
    OnePair(y, rows);
    NoPair(z, rows);
    hide ParentOf, AliasPairs, AliasesOf;
    PairsSplit([x.id], [y.id], rows);
    PairsSplit([x.id] + [y.id], [z], rows);
    assert [x.id] + [y.id] + [z] == [x.id, y.id, z] && [x] + [y] + [] == [x, y];
  }

  lemma {:induction false} ChainPairs(rows: Rows, reported: set<string>, a: string, b: string, c: string)
    requires Chain(rows, reported, a, b, c)
    ensures AliasPairs([c, b, a], rows) == [Alias(c, b), Alias(b, a)]
    ensures AliasPairs([b, c, a], rows) == [Alias(b, a), Alias(c, b)]
  {
    hide ParentOf, AliasPairs;
    assert Alias(c, b) in AliasesOf(rows) && Alias(b, a) in AliasesOf(rows);
    ThreeListed(Alias(c, b), Alias(b, a), a, rows);
    ThreeListed(Alias(b, a), Alias(c, b), a, rows);
  }

  lemma {:induction false} TwoPairs(x: Alias, y: Alias, rows: Rows, reported: set<string>)
    ensures InheritAll([x, y], rows, reported) == Then(InheritOne(x, rows, reported), [y], reported)
    ensures forall mid :: InheritAll([y], mid, reported) == InheritOne(y, mid, reported)
  {
    assert [x, y] == [x] + [y] && [x][..0] == [] && [y][..0] == [];
    PassSplit([x], [y], rows, reported);
    hide InheritOne;
    assert InheritAll([], rows, reported) == Some(rows);
    assert InheritAll([x], rows, reported) == InheritOne(x, rows, reported);
  }

  lemma {:induction false} EarlyChain(rows: Rows, reported: set<string>, a: string, b: string, c: string)
    requires Chain(rows, reported, a, b, c)
    ensures var early := InheritAll([Alias(c, b), Alias(b, a)], rows, reported);
      early.Some? && c in early.value && early.value[c].state == rows[b].state
  {
    TwoPairs(Alias(c, b), Alias(b, a), rows, reported);
    hide InheritAll, ParentOf, EffectiveAsOf;
    var mid := InheritOne(Alias(c, b), rows, reported).value;
    assert mid == rows[c := Inherit(rows[c], rows[b])];
  }

  lemma {:induction false} LateChain(rows: Rows, reported: set<string>, a: string, b: string, c: string)
    requires Chain(rows, reported, a, b, c)
    ensures var late := InheritAll([Alias(b, a), Alias(c, b)], rows, reported);
      late.Some? && c in late.value && late.value[c].state == rows[a].state
  {
    TwoPairs(Alias(b, a), Alias(c, b), rows, reported);
    hide InheritAll, ParentOf, EffectiveAsOf;
    var next := InheritOne(Alias(b, a), rows, reported).value;
    assert next == rows[b := Inherit(rows[b], rows[a])];
  }

  /** Listed before its parent is, an alias of an alias renders what that was; listed after, what
      that has become. */
  lemma {:induction false} ChainShowsOrder(rows: Rows, reported: set<string>, a: string, b: string, c: string)
    requires Chain(rows, reported, a, b, c)
    ensures Lists([c, b, a], rows) && Lists([b, c, a], rows)
    ensures var early, late := PassOver([c, b, a], rows, reported), PassOver([b, c, a], rows, reported);
      && early.Some? && c in early.value && early.value[c].state == rows[b].state
      && late.Some? && c in late.value && late.value[c].state == rows[a].state
    ensures rows[a].state != rows[b].state ==> !PassIgnoresOrder(rows, reported)
  {
    ChainPairs(rows, reported, a, b, c);
    EarlyChain(rows, reported, a, b, c);
    LateChain(rows, reported, a, b, c);
    hide AliasPairs, InheritAll, ParentOf;
    assert Within([c, b, a], rows) && Within([b, c, a], rows);
  }
}
