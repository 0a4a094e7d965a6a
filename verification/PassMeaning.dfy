/** What filing, aliases, arming and triage make of each row, read off the rows' own fields
    (`console/index/graph.py:356-379`, `444-464`, `531-594`, `console/index/event_trigger.py:80-120`). */
module PassMeaning {
  import opened Wrappers
  import opened Model
  import opened Merge
  import opened Passes
  import opened Graph
  import opened AliasOrder
  import opened BuildMeaning
  import opened DutyMeaning
  import Text

  /** A detail as text: nothing when it is missing or empty. */
  function Said(e: Entity, name: string): string {
    if Detail(name) in e.fields && e.fields[Detail(name)].truthy then e.fields[Detail(name)].text else ""
  }

  // --------------------------------------------------------------------------------- filing

  /** `c` is what a result's pass makes of one of its entities: the pass's own poll cadence where the
      entity names none, and nothing of its state when the source could not be read. */
  predicate ClaimFrom(r: AdapterResult, e: Entity, c: Claim) {
    && c.cls == r.cls && c.adapter == r.name && c.reachable == r.ok
    && (c.scope == if r.cls == Discovery then r.scope else [])
    && c.entity == e.(
         provenance := e.provenance.(
           cadenceSeconds := if e.provenance.cadenceSeconds.Some? then e.provenance.cadenceSeconds
                             else r.cadenceSeconds),
         state :=
           if r.ok then e.state
           else if e.kind == Component || e.kind == Run then Known(Unreported)
           else Raw("unreported-by-source"))
  }

  lemma {:induction false} OneClaim(r: AdapterResult, e: Entity, c: Claim)
    ensures c == ClaimOf(r, e) <==> ClaimFrom(r, e, c)
  {
    assert e.provenance == e.provenance.(cadenceSeconds := e.provenance.cadenceSeconds);
  }

  lemma {:induction false} FiledIn(r: AdapterResult, id: string, n: nat, c: Claim)
    requires n <= |r.entities|
    ensures c in AboutIn(r, id, n) <==>
      exists i :: 0 <= i < n && r.entities[i].id == id && ClaimFrom(r, r.entities[i], c)
  {
    hide ClaimFrom, ClaimOf;
    if n > 0 {
      FiledIn(r, id, n - 1, c);
      OneClaim(r, r.entities[n - 1], c);
    }
  }

  /** The claims under an identifier are those some pass made of something it read under that name. */
  ghost predicate Filed(history: History, id: string, c: Claim) {
    exists r, i :: history.Contains(r) && 0 <= i < |r.entities| && r.entities[i].id == id
      && ClaimFrom(r, r.entities[i], c)
  }

  lemma {:induction false} FiledIff(history: History, id: string, c: Claim)
    ensures c in About(history, id) <==> Filed(history, id, c)
  {
    hide ClaimFrom, AboutIn;
    match history
    case Start =>
    case Then(before, r) =>
      FiledIff(before, id, c);
      FiledIn(r, id, |r.entities|, c);
      forall x ensures history.Contains(x) <==> x == r || before.Contains(x) {
      }
  }

  /** An identifier has a report of its own when some pass that was no declaration read it, and what it
      read is no namesake by the word of the registries. */
  lemma {:induction false} ReportedIff(history: History, id: string)
    ensures id in Reported(LedgerOf(history).claims) <==>
      exists c :: Filed(history, id, c) && c.cls != Declaration && c.reachable
        && !IsNamesake(c, DeclaredFacets(About(history, id)))
  {
    LedgerMeaning(history, id);
    forall c ensures c in About(history, id) <==> Filed(history, id, c) {
      FiledIff(history, id, c);
    }
    hide LedgerOf, Filed, IsNamesake, DeclaredFacets, About;
  }

  /** The rows of a kind, by the places their identifiers have in the map: all of them, in its order. */
  lemma {:induction false} OfKindPlaces(ids: seq<string>, rows: Rows, kind: Kind) returns (at: seq<nat>)
    ensures |at| == |OfKind(ids, rows, kind)|
    ensures forall i :: 0 <= i < |at| ==>
      at[i] < |ids| && ids[at[i]] in rows && OfKind(ids, rows, kind)[i] == rows[ids[at[i]]]
    ensures forall i, j :: 0 <= i < j < |at| ==> at[i] < at[j]
    ensures forall p: nat :: p < |ids| && ids[p] in rows && rows[ids[p]].kind == kind <==> p in at
  {
    at := [];
    if ids != [] {
      var n := |ids| - 1;
      at := OfKindPlaces(ids[..n], rows, kind);
      if ids[n] in rows && rows[ids[n]].kind == kind {
        at := at + [n];
      }
    }
  }

  // -------------------------------------------------------------------------------- aliases

  /** Who renders whom: an alias with no report of its own follows its parent, else a parent with none
      follows the alias. */
  predicate Follows(a: Alias, reported: set<string>, to: string, from: string) {
    || (a.id !in reported && to == a.id && from == a.parent)
    || (a.id in reported && a.parent !in reported && to == a.parent && from == a.id)
  }

  lemma {:induction false} PairIsDeclared(ids: seq<string>, rows: Rows, a: Alias)
    requires forall id :: id in ids ==> id in rows
    ensures a in AliasPairs(ids, rows) <==> a.id in ids && a.parent == Said(rows[a.id], "alias_of") && a.parent != ""
  {
    PairsOfPart(ids, rows);
    hide AliasPairs;
  }

  /** One pair: nothing when both sides have reports or one is no row; raised when a component or run
      would be given a source's own word for a state; else the follower shows the other's state and
      as-of, and says that it does. */
  lemma {:induction false} PairMeaning(a: Alias, rows: Rows, reported: set<string>, to: string, from: string)
    requires a.id in rows && a.parent in rows && Follows(a, reported, to, from)
    ensures InheritOne(a, rows, reported) ==
      if (rows[to].kind == Component || rows[to].kind == Run) && rows[from].state.Raw? then None
      else Some(rows[to := rows[to].(
        state := rows[from].state,
        provenance := rows[to].provenance.(asOf := CreditedStamp(rows[from])),
        fields := rows[to].fields[Detail("alias_state") := TextValue("inherited")])])
  {
  }

  lemma {:induction false} IdlePairMeaning(a: Alias, rows: Rows, reported: set<string>)
    requires a.id !in rows || a.parent !in rows || (a.id in reported && a.parent in reported)
    ensures InheritOne(a, rows, reported) == Some(rows)
  {
  }

  // --------------------------------------------------------------------------------- arming

  /** The row waits for an event, and the anchor it names reads intact. */
  predicate Waiting(e: Entity, rows: Rows) {
    var anchor := Text.Strip(Said(e, "event_trigger_anchor"));
    && (e.kind == Component || e.kind == Run) && e.state == Known(Unreported)
    && Text.Lower(Text.Strip(Said(e, "cadence"))) == "event_driven"
    && anchor != "" && anchor in rows
    && (rows[anchor].state == Known(Healthy) || rows[anchor].state == Known(NeverRan)
        || rows[anchor].state == Known(Running))
  }

  lemma {:induction false} ArmedRowMeaning(rows: Rows, id: string)
    requires id in rows
    ensures id in ArmAll(rows)
    ensures ArmAll(rows)[id] == if Waiting(rows[id], rows) then rows[id].(state := Known(State.Armed)) else rows[id]
  {
    hide Text.Strip, Text.Lower;
  }

  // --------------------------------------------------------------------------------- triage

  /** `id` is a run of `check`: `<check>@<as_of>`, at the first `@`. */
  ghost predicate RunOf(id: string, check: string) {
    exists rest: string :: id == check + "@" + rest && '@' !in check
  }

  lemma {:induction false} StartsWith(check: string, rest: string)
    ensures check != "" ==> (check + "@" + rest)[0] in check
  {
  }

  lemma {:induction false} BeforeAtSplits(id: string)
    requires '@' in id
    ensures RunOf(id, BeforeAt(id))
  {
    assert id == [id[0]] + id[1..];
    if id[0] == '@' {
      assert id == "" + "@" + id[1..];
    } else {
      BeforeAtSplits(id[1..]);
      var rest: string :| id[1..] == BeforeAt(id[1..]) + "@" + rest;
      assert id == BeforeAt(id) + "@" + rest;
    }
  }

  lemma {:induction false} OneSplit(id: string, check: string)
    requires RunOf(id, check)
    ensures '@' in id && check == BeforeAt(id)
  {
    var rest: string :| id == check + "@" + rest && '@' !in check;
    assert id[|check|] == '@';
    StartsWith(check, rest);
    if check != "" {
      assert id[1..] == check[1..] + "@" + rest;
      assert check == [check[0]] + check[1..];
      assert RunOf(id[1..], check[1..]);
      OneSplit(id[1..], check[1..]);
    }
  }

  lemma {:induction false} BeforeAtMeaning(id: string)
    ensures '@' in id ==> RunOf(id, BeforeAt(id))
    ensures forall check :: RunOf(id, check) ==> '@' in id && check == BeforeAt(id)
  {
    hide BeforeAt, RunOf;
    if '@' in id {
      BeforeAtSplits(id);
    }
    forall check | RunOf(id, check) ensures '@' in id && check == BeforeAt(id) {
      OneSplit(id, check);
    }
  }

  /** An exact entry, else that of the check the row is a run of, else none. */
  lemma {:induction false} MarkForMeaning(id: string, marks: map<string, Mark>)
    ensures id in marks ==> MarkFor(id, marks) == Some(marks[id])
    ensures id !in marks ==>
      forall check :: RunOf(id, check) && check in marks ==> MarkFor(id, marks) == Some(marks[check])
    ensures id !in marks && (forall check :: RunOf(id, check) ==> check !in marks) ==> MarkFor(id, marks) == None
  {
    BeforeAtMeaning(id);
    hide BeforeAt, RunOf;
  }
}
