/** `console/adapters/cloudwatch_metrics.py:354-392`: naming components by what a pattern captures,
    with a value's own name winning over another value's captured one. */
module ComponentIds {
  import opened Wrappers

  /** What the pattern captures from a value; None, or nothing at all, is no name. */
  type Capture = string -> Option<string>

  type Ids = map<string, string>

  predicate Captures(capture: Capture, value: string, name: string) {
    capture(value) == Some(name) && name != ""
  }

  /** No two ids stand for one value. */
  ghost predicate OneToOne(ids: Ids) { forall a, b :: a in ids && b in ids && ids[a] == ids[b] ==> a == b }

  /** An id is its value, or the name the pattern captures from it. */
  ghost predicate RightlyNamed(ids: Ids, capture: Capture) {
    forall id :: id in ids ==> ids[id] == id || Captures(capture, ids[id], id)
  }

  /** A value goes by its captured name, unless it captures none or the name is taken. */
  ghost predicate Settled(ids: Ids, capture: Capture, value: string) {
    exists id :: id in ids && ids[id] == value
      && (Captures(capture, value, id) ||
        (id == value && forall name :: Captures(capture, value, name) ==> name in ids))
  }

  ghost predicate Holds(ids: Ids, capture: Capture, placed: set<string>) {
    && OneToOne(ids) && RightlyNamed(ids, capture) && ids.Values == placed
    && forall value :: value in placed ==> Settled(ids, capture, value)
  }

  function Displaceable(ids: Ids): set<string> { set id | id in ids && ids[id] != id }

  /** The value that is about to be placed: every name it captures is taken, so its own is all it has. */
  ghost predicate Homeless(ids: Ids, capture: Capture, value: string) {
    forall name :: Captures(capture, value, name) ==> name in ids
  }

  lemma {:induction false} PlaceFree(ids: Ids, capture: Capture, placed: set<string>, value: string)
    requires Holds(ids, capture, placed) && value !in placed && value !in ids && Homeless(ids, capture, value)
    ensures Holds(ids[value := value], capture, placed + {value})
  {
    var now := ids[value := value];
    assert now.Values == placed + {value} by {
      assert value in now && now[value] == value;
      forall x | x in placed ensures x in now.Values {
        var id :| id in ids && ids[id] == x;
        assert now[id] == x;
      }
    }
    SettledStays(ids, now, capture, placed);
    assert now[value] == value && Settled(now, capture, value);
    hide Settled, Captures;
  }

  /** More ids, each value still where it was: whoever was settled still is. */
  lemma {:induction false} SettledStays(ids: Ids, now: Ids, capture: Capture, placed: set<string>)
    requires ids.Keys <= now.Keys
    requires forall value :: value in placed ==> Settled(ids, capture, value)
    requires forall id :: id in ids && ids[id] in placed ==> now[id] == ids[id]
    ensures forall value :: value in placed ==> Settled(now, capture, value)
  {
    hide Captures;
    forall value | value in placed ensures Settled(now, capture, value) {
      var id :| id in ids && ids[id] == value
        && (Captures(capture, value, id) ||
          (id == value && forall name :: Captures(capture, value, name) ==> name in ids));
      assert now[id] == value;
    }
  }

  /** Taking its own name back from `holder`: everybody else is as before, and `holder` is homeless. */
  lemma {:induction false} Displace(ids: Ids, capture: Capture, placed: set<string>, value: string)
    requires Holds(ids, capture, placed) && value !in placed && value in ids && Homeless(ids, capture, value)
    ensures ids[value] in placed && ids[value] != value
    ensures Holds(ids[value := value], capture, placed - {ids[value]} + {value})
    ensures Homeless(ids[value := value], capture, ids[value])
  {
    var now, holder := ids[value := value], ids[value];
    assert holder in ids.Values;
    assert Captures(capture, holder, value);
    assert now.Values == placed - {holder} + {value} by {
      assert now[value] == value;
      forall x | x in placed && x != holder ensures x in now.Values {
        var id :| id in ids && ids[id] == x;
        assert now[id] == x;
      }
    }
    SettledStays(ids, now, capture, placed - {holder});
    assert now[value] == value && Settled(now, capture, value);
    assert forall name :: Captures(capture, holder, name) ==> name == value;
    hide Settled, Captures;
  }

  /** Displacement stops: each step turns one captured id into a verbatim one. */
  method PlaceVerbatim(ids: Ids, value: string, ghost capture: Capture, ghost placed: set<string>) returns (now: Ids)
    requires Holds(ids, capture, placed) && value !in placed && Homeless(ids, capture, value)
    ensures Holds(now, capture, placed + {value})
    decreases Displaceable(ids)
  {
    hide Holds, Homeless;
    now := ids[value := value];
    if value in ids {
      var holder := ids[value];
      Displace(ids, capture, placed, value);
      assert value in Displaceable(ids) && value !in Displaceable(now);
      assert Displaceable(now) <= Displaceable(ids);
      if holder != value {
        assert placed - {holder} + {value} + {holder} == placed + {value};
        now := PlaceVerbatim(now, holder, capture, placed - {holder} + {value});
      }
    } else {
      PlaceFree(ids, capture, placed, value);
    }
  }

  lemma {:induction false} PlaceCaptured(ids: Ids, capture: Capture, placed: set<string>, value: string, name: string)
    requires Holds(ids, capture, placed) && value !in placed && name !in ids && Captures(capture, value, name)
    ensures Holds(ids[name := value], capture, placed + {value})
  {
    var now := ids[name := value];
    assert now.Values == placed + {value} by {
      assert now[name] == value;
      forall x | x in placed ensures x in now.Values {
        var id :| id in ids && ids[id] == x;
        assert now[id] == x;
      }
    }
    SettledStays(ids, now, capture, placed);
    assert now[name] == value && Settled(now, capture, value);
    hide Settled, Captures;
  }

  function Members(values: seq<string>): set<string> { set v | v in values }

  predicate Distinct(values: seq<string>) { forall i, j :: 0 <= i < j < |values| ==> values[i] != values[j] }

  /** A one-to-one naming of all the values: each goes by the name captured from it, or by its own
      when it has no such name or the name is taken. Nothing is ever overwritten. */
  method NameAll(values: seq<string>, capture: Option<Capture>) returns (ids: Ids)
    requires Distinct(values)
    ensures capture == None ==> ids == map v | v in values :: v
    ensures capture.Some? ==> Holds(ids, capture.value, Members(values))
    ensures capture.Some? ==> forall id :: id in ids ==>
      ids[id] in values && (ids[id] == id || (id != "" && capture.value(ids[id]) == Some(id)))
    ensures capture.Some? ==> forall v :: v in values ==> GoesBy(ids, capture.value, v)
  {
    if capture == None {
      return map v | v in values :: v;
    }
    ids := map[];
    for i := 0 to |values|
      invariant Holds(ids, capture.value, Members(values[..i]))
    {
      hide Holds;
      var value, name := values[i], capture.value(values[i]);
      ghost var placed := Members(values[..i]);
      assert values[..i + 1] == values[..i] + [value];
      assert Members(values[..i + 1]) == placed + {value};
      assert value !in placed;
      if name.Some? && name.value != "" && name.value !in ids {
        PlaceCaptured(ids, capture.value, placed, value, name.value);
        ids := ids[name.value := value];
      } else {
        assert Homeless(ids, capture.value, value);
        ids := PlaceVerbatim(ids, value, capture.value, placed);
      }
    }
    assert values[..|values|] == values;
    NamedPlainly(ids, capture.value, values);
  }

  /** The name captured from a value is its id, unless it captures none, or another value has it; and
      then it goes by its own. */
  ghost predicate GoesBy(ids: Ids, capture: Capture, value: string) {
    match capture(value)
    case None => value in ids && ids[value] == value
    case Some(name) =>
      if name == "" then value in ids && ids[value] == value
      else name in ids && (ids[name] == value || (value in ids && ids[value] == value))
  }

  lemma {:induction false} NamedPlainly(ids: Ids, capture: Capture, values: seq<string>)
    requires Holds(ids, capture, Members(values))
    ensures forall id :: id in ids ==>
      ids[id] in values && (ids[id] == id || (id != "" && capture(ids[id]) == Some(id)))
    ensures forall v :: v in values ==> GoesBy(ids, capture, v)
  {
    forall id | id in ids ensures ids[id] in values {
      assert ids[id] in ids.Values;
    }
    forall v | v in values ensures GoesBy(ids, capture, v) {
      assert v in Members(values);
      assert Settled(ids, capture, v);
      var id :| id in ids && ids[id] == v
        && (Captures(capture, v, id) || (id == v && forall name :: Captures(capture, v, name) ==> name in ids));
      if capture(v).Some? && capture(v).value != "" {
        assert Captures(capture, v, capture(v).value);
      }
    }
  }

  /** Two values never share an id, and every value has one. */
  lemma {:induction false} EveryValueHasOneId(ids: Ids, capture: Capture, placed: set<string>, value: string)
    requires Holds(ids, capture, placed) && value in placed
    ensures exists id :: (id in ids && ids[id] == value &&
      forall other :: other in ids && ids[other] == value ==> other == id)
  {
    hide Captures, RightlyNamed;
    var id :| id in ids && ids[id] == value;
  }
}
