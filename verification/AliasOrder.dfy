/** When the order of the map can be seen in what aliases render (`console/index/graph.py:566-594`). */
module AliasOrder {
  import opened Wrappers
  import opened Model
  import opened Passes

  // --------------------------------------------------------------------- the pass at once

  /** An alias renders alike from either: the same state, the same as-of. */
  predicate ReadsAlike(e: Entity, f: Entity) { e.state == f.state && EffectiveAsOf(e) == EffectiveAsOf(f) }

  predicate Acts(a: Alias, rows: Rows, reported: set<string>) { Follower(a, rows, reported).Some? }

  /** The row a pair writes, and the one it reads. */
  function To(a: Alias, rows: Rows, reported: set<string>): (id: string)
    requires Acts(a, rows, reported)
    ensures id in rows
  {
    Follower(a, rows, reported).value.0
  }

  function Source(a: Alias, rows: Rows, reported: set<string>): (id: string)
    requires Acts(a, rows, reported)
    ensures id in rows
  {
    Follower(a, rows, reported).value.1
  }

  /** What a pair makes of the row it writes, both rows being as they were. */
  function Written(a: Alias, rows: Rows, reported: set<string>): Entity
    requires Acts(a, rows, reported)
  {
    Inherit(rows[To(a, rows, reported)], rows[Source(a, rows, reported)])
  }

  predicate Raises(a: Alias, rows: Rows, reported: set<string>) {
    Acts(a, rows, reported) && !WellFormed(Written(a, rows, reported))
  }

  /** A row declared an alias of itself. */
  predicate OfItself(a: Alias) { a.id == a.parent }

  ghost predicate Quiet(pairs: set<Alias>, rows: Rows, reported: set<string>) {
    forall a, b | a in pairs && b in pairs && Acts(a, rows, reported) && Acts(b, rows, reported) ::
      Compatible(a, b, rows, reported)
  }

  /** Pairs that write one row read alike, and a row that is written still reads as before to
      whoever reads it. A row's alias of itself only re-reads what the row was given. */
  predicate Compatible(a: Alias, b: Alias, rows: Rows, reported: set<string>)
    requires Acts(a, rows, reported) && Acts(b, rows, reported)
  {
    if OfItself(a) then true
    else if OfItself(b) then To(a, rows, reported) == To(b, rows, reported) ==> Rereads(a, rows, reported)
    else
      && (To(a, rows, reported) == To(b, rows, reported) ==>
            ReadsAlike(rows[Source(a, rows, reported)], rows[Source(b, rows, reported)]))
      && (To(a, rows, reported) == Source(b, rows, reported) ==>
            ReadsAlike(Written(a, rows, reported), rows[Source(b, rows, reported)]))
  }

  /** The row written reads like the one it was written from, and could stand before. */
  predicate Rereads(a: Alias, rows: Rows, reported: set<string>)
    requires Acts(a, rows, reported)
  {
    && ReadsAlike(Written(a, rows, reported), rows[Source(a, rows, reported)])
    && WellFormed(rows[To(a, rows, reported)])
  }

  ghost predicate Unwritten(pairs: set<Alias>, rows: Rows, reported: set<string>, id: string) {
    forall a :: a in pairs && Acts(a, rows, reported) ==> To(a, rows, reported) != id
  }

  /** A row's alias of itself gives way to any other that writes the row. */
  ghost predicate Overruled(pairs: set<Alias>, a: Alias, rows: Rows, reported: set<string>)
    requires Acts(a, rows, reported)
  {
    OfItself(a) && exists b :: b in pairs && Overrules(b, a, rows, reported)
  }

  predicate Overrules(b: Alias, a: Alias, rows: Rows, reported: set<string>)
    requires Acts(a, rows, reported)
  {
    !OfItself(b) && Acts(b, rows, reported) && To(b, rows, reported) == To(a, rows, reported)
  }

  /** The pass done all at once. */
  ghost predicate AllAtOnce(pairs: set<Alias>, rows: Rows, reported: set<string>, out: Rows) {
    && out.Keys == rows.Keys && EachWritten(pairs, rows, reported, out)
    && forall id :: id in rows && Unwritten(pairs, rows, reported, id) ==> out[id] == rows[id]
  }

  ghost predicate EachWritten(pairs: set<Alias>, rows: Rows, reported: set<string>, out: Rows)
    requires out.Keys == rows.Keys
  {
    forall a :: a in pairs && Acts(a, rows, reported) && !Overruled(pairs, a, rows, reported) ==>
      out[To(a, rows, reported)] == Written(a, rows, reported)
  }

  ghost predicate IsPass(pairs: set<Alias>, rows: Rows, reported: set<string>, out: Option<Rows>) {
    if exists a :: a in pairs && Raises(a, rows, reported) then out == None
    else out.Some? && AllAtOnce(pairs, rows, reported, out.value)
  }

  /** Whoever writes a row, one of them decides it. */
  lemma {:induction false} Decider(pairs: set<Alias>, rows: Rows, reported: set<string>, id: string) returns (a: Alias)
    requires !Unwritten(pairs, rows, reported, id)
    ensures a in pairs && Acts(a, rows, reported) && To(a, rows, reported) == id
    ensures !Overruled(pairs, a, rows, reported)
  {
    hide To, Acts;
    a :| a in pairs && Acts(a, rows, reported) && To(a, rows, reported) == id;
    if Overruled(pairs, a, rows, reported) {
      var b :| b in pairs && Overrules(b, a, rows, reported);
      a := b;
    }
  }

  lemma {:induction false} OnePass(pairs: set<Alias>, rows: Rows, reported: set<string>, out: Option<Rows>,
                                   other: Option<Rows>)
    requires IsPass(pairs, rows, reported, out) && IsPass(pairs, rows, reported, other)
    ensures out == other
  {
    if out.Some? {
      hide Written, To, Acts, Overruled;
      forall id | id in rows ensures out.value[id] == other.value[id] {
        if !Unwritten(pairs, rows, reported, id) {
          var a := Decider(pairs, rows, reported, id);
          assert out.value[To(a, rows, reported)] == Written(a, rows, reported);
        }
      }
      assert out.value == other.value;
    }
  }

  lemma {:induction false} SameKeysSameFollower(a: Alias, r1: Rows, r2: Rows, reported: set<string>)
    requires r1.Keys == r2.Keys
    ensures Follower(a, r1, reported) == Follower(a, r2, reported)
  {
  }

  /** Inheriting again forgets what was inherited before. */
  lemma {:induction false} InheritAgain(t: Entity, first: Entity, second: Entity, later: Entity)
    ensures Inherit(Inherit(t, first), later) == Inherit(t, later)
    ensures ReadsAlike(second, later) ==> Inherit(t, later) == Inherit(t, second)
    ensures ReadsAlike(Inherit(t, t), t)
  {
    assert t.fields[Detail("alias_state") := TextValue("inherited")][Detail("alias_state") := TextValue("inherited")]
        == t.fields[Detail("alias_state") := TextValue("inherited")];
  }

  /** A row so far: as it was, or as the pair that decides it writes it. */
  lemma {:induction false} SoFar(done: set<Alias>, rows: Rows, reported: set<string>, sofar: Rows, id: string)
    returns (b: Option<Alias>)
    requires AllAtOnce(done, rows, reported, sofar) && id in rows
    ensures b.None? ==> sofar[id] == rows[id] && Unwritten(done, rows, reported, id)
    ensures b.Some? ==>
      && b.value in done && Acts(b.value, rows, reported) && To(b.value, rows, reported) == id
      && !Overruled(done, b.value, rows, reported) && sofar[id] == Written(b.value, rows, reported)
  {
    b := None;
    hide To, Acts, Written, Overruled;
    if !Unwritten(done, rows, reported, id) {
      var a := Decider(done, rows, reported, id);
      b := Some(a);
    }
  }

  /** The row a pair reads still reads as it did. */
  lemma {:induction false} SourceReadsAlike(done: set<Alias>, a: Alias, rows: Rows, reported: set<string>, sofar: Rows)
    requires Quiet(done + {a}, rows, reported) && AllAtOnce(done, rows, reported, sofar)
    requires Acts(a, rows, reported) && !OfItself(a)
    ensures Source(a, rows, reported) in sofar
    ensures ReadsAlike(sofar[Source(a, rows, reported)], rows[Source(a, rows, reported)])
  {
    var from := Source(a, rows, reported);
    var b := SoFar(done, rows, reported, sofar, from);
    if b.Some? {
      assert b.value in done + {a} && a in done + {a};
      assert Compatible(b.value, a, rows, reported);
      InheritAgain(rows[from], rows[from], rows[from], rows[from]);
    }
  }

  /** The next pair writes what it would have written at the start. */
  lemma {:induction false} NextPairWrites(done: set<Alias>, a: Alias, rows: Rows, reported: set<string>, sofar: Rows)
    requires Quiet(done + {a}, rows, reported) && AllAtOnce(done, rows, reported, sofar)
    requires Acts(a, rows, reported) && !Overruled(done, a, rows, reported)
    ensures var to, from := To(a, rows, reported), Source(a, rows, reported);
      to in sofar && from in sofar && Inherit(sofar[to], sofar[from]) == Written(a, rows, reported)
  {
    var to, from := To(a, rows, reported), Source(a, rows, reported);
    var b := SoFar(done, rows, reported, sofar, to);
    if OfItself(a) {
      InheritAgain(rows[to], rows[to], rows[to], sofar[to]);
    } else {
      SourceReadsAlike(done, a, rows, reported, sofar);
      var first := if b.Some? then rows[Source(b.value, rows, reported)] else rows[to];
      InheritAgain(rows[to], first, rows[from], sofar[from]);
    }
  }

  /** A row's alias of itself leaves it as another wrote it. */
  lemma {:induction false} OverruledPairKeeps(done: set<Alias>, a: Alias, rows: Rows, reported: set<string>,
                                              sofar: Rows)
    requires Quiet(done + {a}, rows, reported) && AllAtOnce(done, rows, reported, sofar)
    requires Acts(a, rows, reported) && Overruled(done, a, rows, reported)
    requires forall b :: b in done ==> !Raises(b, rows, reported)
    ensures var to := To(a, rows, reported);
      && to == Source(a, rows, reported) && to in sofar && Inherit(sofar[to], sofar[to]) == sofar[to]
      && WellFormed(sofar[to]) && !Raises(a, rows, reported)
  {
    var to := To(a, rows, reported);
    var b :| b in done && Overrules(b, a, rows, reported);
    assert b in done + {a} && a in done + {a};
    assert Compatible(b, a, rows, reported);
    assert sofar[to] == Written(b, rows, reported);
    var from := rows[Source(b, rows, reported)];
    InheritAgain(rows[to], from, from, sofar[to]);
  }

  lemma {:induction false} OneMoreWritten(done: set<Alias>, a: Alias, rows: Rows, reported: set<string>, sofar: Rows)
    requires Quiet(done + {a}, rows, reported) && AllAtOnce(done, rows, reported, sofar)
    requires Acts(a, rows, reported) && !Overruled(done, a, rows, reported)
    ensures AllAtOnce(done + {a}, rows, reported, sofar[To(a, rows, reported) := Written(a, rows, reported)])
  {
    EachStillWritten(done, a, rows, reported, sofar);
    hide Quiet, Written, To, Acts, EachWritten;
    forall id | Unwritten(done + {a}, rows, reported, id)
      ensures id != To(a, rows, reported) && Unwritten(done, rows, reported, id)
    {
      FewerUnwritten(done, a, rows, reported, id);
    }
    hide Unwritten, Overruled;
  }

  lemma {:induction false} EachStillWritten(done: set<Alias>, a: Alias, rows: Rows, reported: set<string>, sofar: Rows)
    requires Quiet(done + {a}, rows, reported) && Acts(a, rows, reported) && !Overruled(done, a, rows, reported)
    requires sofar.Keys == rows.Keys && EachWritten(done, rows, reported, sofar)
    ensures EachWritten(done + {a}, rows, reported, sofar[To(a, rows, reported) := Written(a, rows, reported)])
  {
    forall b | b in done && Acts(b, rows, reported) && !Overruled(done + {a}, b, rows, reported)
      ensures !Overruled(done, b, rows, reported)
      ensures To(b, rows, reported) == To(a, rows, reported) ==>
        Written(b, rows, reported) == Written(a, rows, reported)
    {
      assert b in done + {a} && a in done + {a};
      FewerOverruled(done, a, b, rows, reported);
      if To(b, rows, reported) == To(a, rows, reported) {
        WritersOfOne(done, a, b, rows, reported);
      }
    }
    hide Quiet, Written, To, Acts, Overruled;
  }

  lemma {:induction false} FewerOverruled(done: set<Alias>, a: Alias, b: Alias, rows: Rows, reported: set<string>)
    requires Acts(b, rows, reported) && !Overruled(done + {a}, b, rows, reported)
    ensures !Overruled(done, b, rows, reported) && (OfItself(b) ==> !Overrules(a, b, rows, reported))
  {
    hide Overrules;
    assert forall c :: c in done ==> c in done + {a};
    assert a in done + {a};
  }

  lemma {:induction false} WritersOfOne(done: set<Alias>, a: Alias, b: Alias, rows: Rows, reported: set<string>)
    requires Quiet(done + {a}, rows, reported) && b in done && Acts(a, rows, reported) && Acts(b, rows, reported)
    requires To(a, rows, reported) == To(b, rows, reported)
    requires !Overruled(done, a, rows, reported) && (OfItself(b) ==> !Overrules(a, b, rows, reported))
    ensures Written(b, rows, reported) == Written(a, rows, reported)
  {
    assert b in done + {a} && a in done + {a};
    assert Compatible(a, b, rows, reported);
    if OfItself(a) {
      assert !Overrules(b, a, rows, reported);
    } else {
      WriteAlike(a, b, rows, reported);
    }
  }

  lemma {:induction false} WriteAlike(a: Alias, b: Alias, rows: Rows, reported: set<string>)
    requires Acts(a, rows, reported) && Acts(b, rows, reported) && To(a, rows, reported) == To(b, rows, reported)
    ensures ReadsAlike(rows[Source(a, rows, reported)], rows[Source(b, rows, reported)]) <==>
      Written(a, rows, reported) == Written(b, rows, reported)
  {
    hide To, Source, Acts, EffectiveAsOf;
  }

  lemma {:induction false} FewerUnwritten(done: set<Alias>, a: Alias, rows: Rows, reported: set<string>, id: string)
    requires Unwritten(done + {a}, rows, reported, id)
    ensures Unwritten(done, rows, reported, id) && (Acts(a, rows, reported) ==> To(a, rows, reported) != id)
  {
    hide To, Acts;
    assert a in done + {a} && forall b :: b in done ==> b in done + {a};
  }

  /** A pair that writes nothing, or nothing new. */
  lemma {:induction false} IdlePair(done: set<Alias>, a: Alias, rows: Rows, reported: set<string>, sofar: Rows)
    requires AllAtOnce(done, rows, reported, sofar)
    requires Acts(a, rows, reported) ==> Overruled(done, a, rows, reported)
    ensures AllAtOnce(done + {a}, rows, reported, sofar)
  {
    hide To, Written, Acts;
    forall id | Unwritten(done + {a}, rows, reported, id) ensures Unwritten(done, rows, reported, id) {
      FewerUnwritten(done, a, rows, reported, id);
    }
    forall b | b in done + {a} && Acts(b, rows, reported) && !Overruled(done + {a}, b, rows, reported)
      ensures b in done && !Overruled(done, b, rows, reported)
    {
      FewerOverruled(done, a, b, rows, reported);
    }
    hide Unwritten, Overruled;
  }

  lemma {:induction false} InheritOneMeaning(a: Alias, rows: Rows, reported: set<string>, sofar: Rows)
    requires sofar.Keys == rows.Keys
    requires Acts(a, rows, reported) ==>
      Inherit(sofar[To(a, rows, reported)], sofar[Source(a, rows, reported)]) == Written(a, rows, reported)
    ensures InheritOne(a, sofar, reported) ==
      if Raises(a, rows, reported) then None
      else if Acts(a, rows, reported) then Some(sofar[To(a, rows, reported) := Written(a, rows, reported)])
      else Some(sofar)
  {
    SameKeysSameFollower(a, rows, sofar, reported);
    hide Inherit, WellFormed;
  }

  lemma {:induction false} InheritNothingNew(a: Alias, rows: Rows, reported: set<string>, sofar: Rows)
    requires sofar.Keys == rows.Keys && Acts(a, rows, reported)
    requires var to := To(a, rows, reported);
      to == Source(a, rows, reported) && Inherit(sofar[to], sofar[to]) == sofar[to] && WellFormed(sofar[to])
    ensures InheritOne(a, sofar, reported) == Some(sofar)
  {
    SameKeysSameFollower(a, rows, sofar, reported);
    hide Inherit, WellFormed;
    assert sofar[To(a, rows, reported) := sofar[To(a, rows, reported)]] == sofar;
  }

  lemma {:induction false} OneMorePair(done: set<Alias>, a: Alias, rows: Rows, reported: set<string>,
                                       sofar: Option<Rows>)
    requires Quiet(done + {a}, rows, reported) && IsPass(done, rows, reported, sofar)
    ensures IsPass(done + {a}, rows, reported, if sofar.None? then None else InheritOne(a, sofar.value, reported))
  {
    assert forall b :: b in done + {a} <==> b in done || b == a;
    if sofar.Some? {
      hide Quiet, Written, To, Source, Raises, Overruled, Inherit, WellFormed, AllAtOnce, InheritOne, Acts;
      assert sofar.value.Keys == rows.Keys by { SameKeys(done, rows, reported, sofar.value); }
      if !Acts(a, rows, reported) {
        IdlePair(done, a, rows, reported, sofar.value);
        InheritOneMeaning(a, rows, reported, sofar.value);
        ActsToRaise(a, rows, reported);
      } else if Overruled(done, a, rows, reported) {
        OverruledPairKeeps(done, a, rows, reported, sofar.value);
        InheritNothingNew(a, rows, reported, sofar.value);
        IdlePair(done, a, rows, reported, sofar.value);
      } else {
        NextPairWrites(done, a, rows, reported, sofar.value);
        OneMoreWritten(done, a, rows, reported, sofar.value);
        InheritOneMeaning(a, rows, reported, sofar.value);
      }
    }
  }

  lemma {:induction false} SameKeys(done: set<Alias>, rows: Rows, reported: set<string>, sofar: Rows)
    requires AllAtOnce(done, rows, reported, sofar)
    ensures sofar.Keys == rows.Keys
  {
  }

  lemma {:induction false} ActsToRaise(a: Alias, rows: Rows, reported: set<string>)
    ensures Raises(a, rows, reported) ==> Acts(a, rows, reported)
  {
  }

  ghost function Among(pairs: seq<Alias>): set<Alias> { set a | a in pairs }

  lemma {:induction false} QuietPass(pairs: seq<Alias>, rows: Rows, reported: set<string>)
    requires Quiet(Among(pairs), rows, reported)
    ensures IsPass(Among(pairs), rows, reported, InheritAll(pairs, rows, reported))
  {
    if pairs == [] {
      assert AllAtOnce({}, rows, reported, rows);
    } else {
      var n := |pairs| - 1;
      assert pairs == pairs[..n] + [pairs[n]];
      assert Among(pairs) == Among(pairs[..n]) + {pairs[n]};
      QuietPart(Among(pairs[..n]), Among(pairs), rows, reported);
      hide Quiet, IsPass, InheritOne;
      QuietPass(pairs[..n], rows, reported);
      OneMorePair(Among(pairs[..n]), pairs[n], rows, reported, InheritAll(pairs[..n], rows, reported));
    }
  }

  lemma {:induction false} QuietPart(some: set<Alias>, pairs: set<Alias>, rows: Rows, reported: set<string>)
    requires Quiet(pairs, rows, reported) && some <= pairs
    ensures Quiet(some, rows, reported)
  {
    hide Compatible, Acts;
  }

  // --------------------------------------------------------------- the pairs of a listing

  /** Every alias the rows declare. */
  ghost function AliasesOf(rows: Rows): set<Alias> {
    set id | id in rows && ParentOf(rows[id]) != "" :: Alias(id, ParentOf(rows[id]))
  }

  lemma {:induction false} PairsOfPart(ids: seq<string>, rows: Rows)
    requires forall id :: id in ids ==> id in rows
    ensures forall a :: a in AliasPairs(ids, rows) <==>
      a.id in ids && a.parent == ParentOf(rows[a.id]) && a.parent != ""
  {
    if ids != [] {
      var n := |ids| - 1;
      assert ids == ids[..n] + [ids[n]];
      hide ParentOf;
      PairsOfPart(ids[..n], rows);
    }
  }

  lemma {:induction false} PairsOf(ids: seq<string>, rows: Rows)
    requires Lists(ids, rows)
    ensures Among(AliasPairs(ids, rows)) == AliasesOf(rows)
  {
    PairsOfPart(ids, rows);
    hide AliasPairs, ParentOf;
  }

  /** Aliases that do not compete: the pass ignores the map's order. */
  lemma {:induction false} AliasPassIgnoresOrder(p: seq<string>, q: seq<string>, rows: Rows, reported: set<string>)
    requires Lists(p, rows) && Lists(q, rows) && Quiet(AliasesOf(rows), rows, reported)
    ensures InheritAll(AliasPairs(p, rows), rows, reported) == InheritAll(AliasPairs(q, rows), rows, reported)
  {
    PairsOf(p, rows);
    PairsOf(q, rows);
    hide AliasPairs, AliasesOf, Quiet, Among, IsPass, InheritAll;
    QuietPass(AliasPairs(p, rows), rows, reported);
    QuietPass(AliasPairs(q, rows), rows, reported);
    OnePass(AliasesOf(rows), rows, reported, InheritAll(AliasPairs(p, rows), rows, reported),
            InheritAll(AliasPairs(q, rows), rows, reported));
  }
}
