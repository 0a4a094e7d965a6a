/** The execution cache over whole runs: executions finish, are redriven and expire while any number
    of threads list, look up, fetch and store, documents are written and processes restart, in any
    order (`console/sf_execution_cache.py:105-332`). */
module ExecutionProtocol {
  import opened Wrappers
  import opened StoreCodec
  import opened ExecutionCaching

  /** One execution as it stands at one instant. */
  datatype Execution = Execution(reading: Reading, detail: Json, entered: seq<string>)

  /** What Step Functions holds of each execution at each instant. */
  type World = (string, nat) -> Option<Execution>

  /** A terminal execution never changes again except by a redrive, which raises its count; a
      response is an object, and none of its parts looks like a store tag. */
  ghost predicate Lawful(w: World) {
    && (forall arn, t, u | t <= u && w(arn, t).Some? && w(arn, u).Some? ::
          Settles(w(arn, t).value, w(arn, u).value))
    && forall arn, t | w(arn, t).Some? :: w(arn, t).value.detail.Dict? && Untagged(w(arn, t).value.detail)
  }

  /** The four states an execution ends in. */
  predicate Over(status: string) {
    status == "SUCCEEDED" || status == "FAILED" || status == "TIMED_OUT" || status == "ABORTED"
  }

  ghost predicate Settles(before: Execution, after: Execution) {
    && before.reading.redrives <= after.reading.redrives
    && (Over(before.reading.status) && before.reading.redrives == after.reading.redrives ==> before == after)
  }

  function TagAt(w: World, arn: string, t: nat): Option<Tag> {
    match w(arn, t)
    case None => None
    case Some(x) => ChangeTag(x.reading)
  }

  /** A reading of an execution that is over and says when it stopped. */
  predicate Final(r: Reading) { Over(r.status) && r.stop.Some? && r.stop.value != "" }

  /** Tags match exactly when both readings are final and say the same. */
  lemma {:induction false} TagsMatchIff(r: Reading, q: Reading)
    ensures ChangeTag(r).Some? <==> Final(r)
    ensures ChangeTag(r).Some? && ChangeTag(r) == ChangeTag(q) <==> Final(r) && r == q
  {
  }

  // ------------------------------------------------------------------------------ the system

  /** `pending` are the documents taken but not yet written, by however many persists are under way. */
  datatype System = System(now: nat, cache: Cache, file: Option<Doc>, pending: set<Doc>)

  /** One critical section, or one thing that happens outside the lock. `read` is when the record
      a thread holds was read, `at` when it fetched. */
  datatype Event =
    | Tick
    | Load
    | Listing(machine: string, listed: set<string>)
    | Describe(arn: string, at: nat, owner: Option<string>)
    | Enter(arn: string, read: nat, at: nat, owner: Option<string>, readable: bool)
    | Take(force: bool)
    | Write(doc: Doc)
    | WriteFails
    | Lose
    | Clear
    | Restart(stored: bool)

  /** A fetch reads the world no later than now, and no earlier than the record it was asked for. */
  ghost predicate Possible(w: World, s: System, e: Event) {
    match e
    case Describe(arn, at, _) => at <= s.now && w(arn, at).Some?
    case Enter(arn, read, at, _, readable) =>
      read <= at <= s.now && w(arn, read).Some? && (readable ==> w(arn, at).Some?)
    case Write(doc) => doc in s.pending
    case _ => true
  }

  ghost function Step(w: World, clock: Clock, s: System, e: Event): System
    requires Possible(w, s, e)
  {
    match e
    case Tick => s.(now := s.now + 1)
    case Load => s.(cache := LoadOnce(s.cache, s.file, clock))
    case Listing(machine, listed) => s.(cache := ListingStep(LoadOnce(s.cache, s.file, clock), machine, listed))
    case Describe(arn, at, machine) =>
      var x := w(arn, at).value;
      s.(cache := DescribeStep(s.cache, arn, StoredDetail(x.reading, machine, x.detail)))
    case Enter(arn, read, at, machine, readable) =>
      var names := if readable then Some(w(arn, at).value.entered) else None;
      s.(cache := EnteredStep(s.cache, arn, StoredEntered(w(arn, read).value.reading, machine, names)))
    case Take(force) =>
      if Persists(s.cache, force)
      then s.(cache := s.cache.(dirty := false), pending := s.pending + {DocOf(s.cache, clock)})
      else s
    case Write(doc) => s.(file := Some(doc), pending := s.pending - {doc})
    case WriteFails => s.(cache := s.cache.(dirty := true))
    case Lose => s.(file := None)
    case Clear => s.(cache := s.cache.(details := map[], entered := map[], dirty := false))
    case Restart(stored) => s.(cache := Cache(map[], map[], stored, !stored, false))
  }

  const START := System(0, Cache(map[], map[], false, true, false), None, {})

  /** A run: any sequence of possible events. */
  datatype Run = Begin | And(before: Run, event: Event)

  ghost predicate Happens(w: World, clock: Clock, run: Run)
    decreases run, 0
  {
    match run
    case Begin => true
    case And(before, e) => Happens(w, clock, before) && Possible(w, After(w, clock, before), e)
  }

  ghost function After(w: World, clock: Clock, run: Run): System
    requires Happens(w, clock, run)
    decreases run, 1
  {
    match run
    case Begin => START
    case And(before, e) => Step(w, clock, After(w, clock, before), e)
  }

  // ------------------------------------------------------------------------- what is kept

  ghost predicate DetailAt(w: World, arn: string, t: nat, e: Entry<Json>) {
    TagAt(w, arn, t) == Some(e.tag) && w(arn, t).value.detail == e.value
  }

  /** The detail was the execution's, whole, at an instant when it carried the tag. */
  ghost predicate DetailWasTrue(w: World, now: nat, arn: string, e: Entry<Json>) {
    exists t: nat :: t <= now && DetailAt(w, arn, t, e)
  }

  ghost predicate NamesAt(w: World, arn: string, t: nat, names: seq<string>) {
    w(arn, t).Some? && w(arn, t).value.entered == names
  }

  /** The names were the execution's at an instant no earlier than one at which it carried the tag. */
  ghost predicate NamesWereTrue(w: World, now: nat, arn: string, e: Entry<seq<string>>) {
    exists t: nat, u: nat :: t <= u <= now && TagAt(w, arn, t) == Some(e.tag) && NamesAt(w, arn, u, e.value)
  }

  ghost predicate DetailsTrue(w: World, now: nat, m: Entries<Json>) {
    forall arn :: arn in m ==> DetailWasTrue(w, now, arn, m[arn])
  }

  ghost predicate EnteredTrue(w: World, now: nat, m: Entries<seq<string>>) {
    forall arn :: arn in m ==> NamesWereTrue(w, now, arn, m[arn])
  }

  /** A document is the encoding of entries that were true. */
  ghost predicate DocTrue(w: World, now: nat, clock: Clock, doc: Doc) {
    && EnteredTrue(w, now, doc.entered)
    && exists m :: doc.details == EncodeAll(m, clock) && DetailsTrue(w, now, m)
  }

  ghost predicate Inv(w: World, clock: Clock, s: System) {
    && DetailsTrue(w, s.now, s.cache.details) && EnteredTrue(w, s.now, s.cache.entered)
    && (s.file.Some? ==> DocTrue(w, s.now, clock, s.file.value))
    && forall doc :: doc in s.pending ==> DocTrue(w, s.now, clock, doc)
  }

  // ---------------------------------------------------------------------------- each step

  lemma {:induction false} TruthLasts(w: World, now: nat, clock: Clock, s: System)
    requires Inv(w, clock, s.(now := now))
    ensures Inv(w, clock, s.(now := now + 1))
  {
    forall arn, e: Entry<Json> | DetailWasTrue(w, now, arn, e) ensures DetailWasTrue(w, now + 1, arn, e) {
      var t: nat :| t <= now && DetailAt(w, arn, t, e);
      assert t <= now + 1;
    }
    forall arn, e: Entry<seq<string>> | NamesWereTrue(w, now, arn, e) ensures NamesWereTrue(w, now + 1, arn, e) {
      var t: nat, u: nat :| t <= u <= now && TagAt(w, arn, t) == Some(e.tag) && NamesAt(w, arn, u, e.value);
      assert u <= now + 1;
    }
    hide DetailWasTrue, NamesWereTrue;
    forall doc | DocTrue(w, now, clock, doc) ensures DocTrue(w, now + 1, clock, doc) {
      var m :| doc.details == EncodeAll(m, clock) && DetailsTrue(w, now, m);
      assert DetailsTrue(w, now + 1, m);
    }
  }

  lemma {:induction false} DetailDecodes(w: World, now: nat, clock: Clock, arn: string, e: Entry<Json>)
    requires Lawful(w) && clock.Faithful() && DetailWasTrue(w, now, arn, e)
    ensures Decode(Encode(e.value, clock), clock) == Some(e.value) && e.value.Dict?
  {
    var t: nat :| t <= now && DetailAt(w, arn, t, e);
    RoundTrip(e.value, clock);
  }

  /** A document of true entries loads as those very entries. */
  lemma {:induction false} TrueDocLoads(w: World, now: nat, clock: Clock, m: Entries<Json>)
    requires Lawful(w) && clock.Faithful() && DetailsTrue(w, now, m)
    ensures Readable(EncodeAll(m, clock), clock) && DecodeAll(EncodeAll(m, clock), clock) == m
  {
    hide Lawful, DetailWasTrue, Decode, Encode;
    forall arn | arn in m
      ensures Decode(Encode(m[arn].value, clock), clock) == Some(m[arn].value) && m[arn].value.Dict?
    {
      DetailDecodes(w, now, clock, arn, m[arn]);
    }
  }

  lemma {:induction false} LoadKeepsTruth(w: World, clock: Clock, s: System)
    requires Lawful(w) && clock.Faithful() && Inv(w, clock, s)
    ensures Inv(w, clock, s.(cache := LoadOnce(s.cache, s.file, clock)))
  {
    if s.file.Some? {
      var m :| s.file.value.details == EncodeAll(m, clock) && DetailsTrue(w, s.now, m);
      TrueDocLoads(w, s.now, clock, m);
      MergedIsTrue(w, s.now, m, s.cache.details, s.file.value.entered, s.cache.entered);
      hide Lawful, DetailsTrue, EnteredTrue, EncodeAll, DecodeAll, Readable, DocTrue;
    }
  }

  lemma {:induction false} MergedIsTrue(w: World, now: nat, m: Entries<Json>, n: Entries<Json>,
                                        p: Entries<seq<string>>, q: Entries<seq<string>>)
    requires DetailsTrue(w, now, m) && DetailsTrue(w, now, n) && EnteredTrue(w, now, p) && EnteredTrue(w, now, q)
    ensures DetailsTrue(w, now, m + n) && EnteredTrue(w, now, p + q)
  {
    hide DetailWasTrue, NamesWereTrue;
  }

  lemma {:induction false} DescribeKeepsTruth(w: World, clock: Clock, s: System, arn: string, at: nat,
        machine: Option<string>)
    requires Inv(w, clock, s) && at <= s.now && w(arn, at).Some?
    ensures var x := w(arn, at).value;
      Inv(w, clock, s.(cache := DescribeStep(s.cache, arn, StoredDetail(x.reading, machine, x.detail))))
  {
    var x := w(arn, at).value;
    var entry := StoredDetail(x.reading, machine, x.detail);
    if entry.Some? {
      assert DetailAt(w, arn, at, entry.value);
      assert DetailWasTrue(w, s.now, arn, entry.value);
    }
    hide DetailWasTrue, NamesWereTrue, DocTrue, StoredDetail;
  }

  lemma {:induction false} EnterKeepsTruth(
    w: World, clock: Clock, s: System, arn: string, read: nat, at: nat, machine: Option<string>, readable: bool)
    requires Inv(w, clock, s) && Possible(w, s, Enter(arn, read, at, machine, readable))
    ensures Inv(w, clock, Step(w, clock, s, Enter(arn, read, at, machine, readable)))
  {
    var names := if readable then Some(w(arn, at).value.entered) else None;
    var entry := StoredEntered(w(arn, read).value.reading, machine, names);
    if entry.Some? {
      assert TagAt(w, arn, read) == Some(entry.value.tag) && NamesAt(w, arn, at, entry.value.value);
      assert NamesWereTrue(w, s.now, arn, entry.value);
    }
    hide DetailWasTrue, NamesWereTrue, DocTrue, StoredEntered;
  }

  lemma {:induction false} StepKeepsTruth(w: World, clock: Clock, s: System, e: Event)
    requires Lawful(w) && clock.Faithful() && Inv(w, clock, s) && Possible(w, s, e)
    ensures Inv(w, clock, Step(w, clock, s, e))
  {
    hide Lawful, DetailWasTrue, NamesWereTrue, LoadOnce;
    match e
    case Tick => TruthLasts(w, s.now, clock, s);
    case Load => LoadKeepsTruth(w, clock, s);
    case Listing(machine, listed) => LoadKeepsTruth(w, clock, s);
    case Describe(arn, at, machine) => DescribeKeepsTruth(w, clock, s, arn, at, machine);
    case Enter(arn, read, at, machine, readable) => EnterKeepsTruth(w, clock, s, arn, read, at, machine, readable);
    case Take(force) => assert DocTrue(w, s.now, clock, DocOf(s.cache, clock));
    case Write(doc) =>
    case WriteFails =>
    case Lose =>
    case Clear =>
    case Restart(stored) =>
  }

  /** In every run, every entry in memory, in the file and on its way to the file was true. */
  lemma {:induction false} RunKeepsTruth(w: World, clock: Clock, run: Run)
    requires Lawful(w) && clock.Faithful() && Happens(w, clock, run)
    ensures Inv(w, clock, After(w, clock, run))
  {
    hide Lawful, Step, Possible;
    if run.And? {
      RunKeepsTruth(w, clock, run.before);
      hide Inv;
      StepKeepsTruth(w, clock, After(w, clock, run.before), run.event);
    }
  }

  // --------------------------------------------------------------------- what is served

  /** While an execution carries one tag it is one and the same. */
  lemma {:induction false} TagDetermines(w: World, arn: string, t: nat, u: nat)
    requires Lawful(w) && TagAt(w, arn, t).Some? && TagAt(w, arn, t) == TagAt(w, arn, u)
    ensures w(arn, t) == w(arn, u)
  {
    if t <= u {
      assert Settles(w(arn, t).value, w(arn, u).value);
    } else {
      assert Settles(w(arn, u).value, w(arn, t).value);
    }
  }

  /** A describe answer served from the cache is what the execution was when the caller's own record
      of it was read; and it was over by then. */
  lemma {:induction false} ServedDetailIsTrue(w: World, clock: Clock, run: Run, arn: string, read: nat)
    requires Lawful(w) && clock.Faithful() && Happens(w, clock, run) && w(arn, read).Some?
    requires Hit(After(w, clock, run).cache.details, arn, TagAt(w, arn, read)).Some?
    ensures Hit(After(w, clock, run).cache.details, arn, TagAt(w, arn, read)) == Some(w(arn, read).value.detail)
    ensures Over(w(arn, read).value.reading.status)
  {
    RunKeepsTruth(w, clock, run);
    var s := After(w, clock, run);
    var e := s.cache.details[arn];
    assert DetailWasTrue(w, s.now, arn, e);
    var t: nat :| t <= s.now && DetailAt(w, arn, t, e);
    hide Inv, After, Lawful;
    TagDetermines(w, arn, t, read);
  }

  ghost predicate ServedFrom(w: World, arn: string, read: nat, now: nat, names: seq<string>) {
    exists u: nat :: read <= u <= now && NamesAt(w, arn, u, names)
  }

  /** Entered states served from the cache were the execution's at some instant no earlier than the
      caller's own record of it, at which the execution was over. */
  lemma {:induction false} ServedNamesAreTrue(w: World, clock: Clock, run: Run, arn: string, read: nat)
    requires Lawful(w) && clock.Faithful() && Happens(w, clock, run)
    requires w(arn, read).Some? && read <= After(w, clock, run).now
    requires Hit(After(w, clock, run).cache.entered, arn, TagAt(w, arn, read)).Some?
    ensures ServedFrom(w, arn, read, After(w, clock, run).now,
      Hit(After(w, clock, run).cache.entered, arn, TagAt(w, arn, read)).value)
    ensures Over(w(arn, read).value.reading.status)
  {
    RunKeepsTruth(w, clock, run);
    var s := After(w, clock, run);
    var e := s.cache.entered[arn];
    assert NamesWereTrue(w, s.now, arn, e);
    var t: nat, u: nat :| t <= u <= s.now && TagAt(w, arn, t) == Some(e.tag) && NamesAt(w, arn, u, e.value);
    assert TagAt(w, arn, read) == Some(e.tag);
    hide Inv, After, Happens, Hit, Lawful, TagAt;
    OverAtTag(w, arn, read);
    TagDetermines(w, arn, t, read);
    if u < read {
      SettledBetween(w, arn, t, u, read);
      assert NamesAt(w, arn, read, e.value);
    }
  }

  lemma {:induction false} OverAtTag(w: World, arn: string, t: nat)
    requires w(arn, t).Some? && TagAt(w, arn, t).Some?
    ensures Over(w(arn, t).value.reading.status)
  {
  }

  /** Between two instants of one tag nothing happened to the execution. */
  lemma {:induction false} SettledBetween(w: World, arn: string, t: nat, u: nat, v: nat)
    requires Lawful(w) && t <= u <= v && w(arn, u).Some?
    requires TagAt(w, arn, t).Some? && TagAt(w, arn, t) == TagAt(w, arn, v)
    ensures w(arn, u) == w(arn, v)
  {
    assert Settles(w(arn, t).value, w(arn, u).value);
    assert Settles(w(arn, u).value, w(arn, v).value);
  }

  /** In every run, an execution that is not over is answered neither from memory nor from disk: no
      entry matches its record, and no entry anywhere was filed under a state that is not final. */
  lemma {:induction false} RunningIsNeverServed(w: World, clock: Clock, run: Run, arn: string, read: nat)
    requires Lawful(w) && clock.Faithful() && Happens(w, clock, run) && w(arn, read).Some?
    requires !Over(w(arn, read).value.reading.status)
    ensures Hit(After(w, clock, run).cache.details, arn, TagAt(w, arn, read)) == None
    ensures Hit(After(w, clock, run).cache.entered, arn, TagAt(w, arn, read)) == None
    ensures forall a :: a in After(w, clock, run).cache.details ==>
      Over(After(w, clock, run).cache.details[a].tag.status)
    ensures forall a :: a in After(w, clock, run).cache.entered ==>
      Over(After(w, clock, run).cache.entered[a].tag.status)
  {
    RunKeepsTruth(w, clock, run);
    var s := After(w, clock, run);
    assert DetailsTrue(w, s.now, s.cache.details) && EnteredTrue(w, s.now, s.cache.entered);
    hide After, Happens, Lawful, Inv, DetailsTrue, EnteredTrue, Over;
    FiledWhenOver(w, s.now, s.cache.details, s.cache.entered);
    TagsMatchIff(w(arn, read).value.reading, w(arn, read).value.reading);
  }

  lemma {:induction false} FiledWhenOver(w: World, now: nat, details: Entries<Json>, entered: Entries<seq<string>>)
    requires DetailsTrue(w, now, details) && EnteredTrue(w, now, entered)
    ensures forall a :: a in details ==> Over(details[a].tag.status)
    ensures forall a :: a in entered ==> Over(entered[a].tag.status)
  {
    forall a | a in details ensures Over(details[a].tag.status) {
      assert DetailWasTrue(w, now, a, details[a]);
    }
    forall a | a in entered ensures Over(entered[a].tag.status) {
      assert NamesWereTrue(w, now, a, entered[a]);
    }
  }

  /** A restart that finds what was persisted is answered as before: same tags, same values. */
  lemma {:induction false} RestartRestores(w: World, clock: Clock, run: Run)
    requires Lawful(w) && clock.Faithful() && Happens(w, clock, run)
    ensures var c := After(w, clock, run).cache;
      var again := LoadOnce(Cache(map[], map[], true, false, false), Some(DocOf(c, clock)), clock);
      again.details == c.details && again.entered == c.entered
  {
    hide Lawful, After, Happens, DetailsTrue, EncodeAll, DecodeAll, Readable;
    RunKeepsTruth(w, clock, run);
    var s := After(w, clock, run);
    assert DetailsTrue(w, s.now, s.cache.details);
    hide Inv;
    TrueDocLoads(w, s.now, clock, s.cache.details);
    assert s.cache.details + map[] == s.cache.details && s.cache.entered + map[] == s.cache.entered;
  }
}
