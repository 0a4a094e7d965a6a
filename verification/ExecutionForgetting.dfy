/** How far "an execution gone from the listing is gone from the cache" holds
    (`console/sf_execution_cache.py:41-47`, `272-332`): a listing empties memory of what it omits, and
    exactly a later store of it, or a load of a document that still holds it, brings it back. */
module ExecutionForgetting {
  import opened Wrappers
  import opened StoreCodec
  import opened ExecutionCaching
  import opened ExecutionProtocol

  predicate Filed<V>(m: Entries<V>, arn: string, machine: string) { arn in m && m[arn].machine == Some(machine) }

  predicate InMemory(c: Cache, arn: string, machine: string) {
    Filed(c.details, arn, machine) || Filed(c.entered, arn, machine)
  }

  predicate InDoc(doc: Doc, arn: string, machine: string) {
    Filed(doc.details, arn, machine) || Filed(doc.entered, arn, machine)
  }

  /** The documents there are: the file, and those on their way to it. */
  function Docs(s: System): set<Doc> { s.pending + match s.file case None => {} case Some(doc) => {doc} }

  predicate Reads(s: System) { !s.cache.loaded && s.cache.stored && s.file.Some? }

  /** Reading the store now would file `arn` under `machine` in memory. */
  predicate FileBrings(s: System, arn: string, machine: string) {
    && Reads(s)
    && ((Filed(s.file.value.details, arn, machine) && arn !in s.cache.details)
        || (Filed(s.file.value.entered, arn, machine) && arn !in s.cache.entered))
  }

  /** The events that bring `arn` back: a final answer stored under its machine, or a load of a
      document that holds it, unless the same section's own listing omits it again. */
  ghost predicate Returns(w: World, s: System, e: Event, arn: string, machine: string)
    requires Possible(w, s, e)
  {
    match e
    case Describe(a, at, owner) => a == arn && owner == Some(machine) && TagAt(w, arn, at).Some?
    case Enter(a, read, _, owner, readable) =>
      a == arn && owner == Some(machine) && TagAt(w, arn, read).Some? && readable
    case Load => FileBrings(s, arn, machine)
    case Listing(m, listed) => FileBrings(s, arn, machine) && (m != machine || arn in listed)
    case _ => false
  }

  lemma {:induction false} LoadBrings(w: World, clock: Clock, s: System, arn: string, machine: string)
    requires Lawful(w) && clock.Faithful() && Inv(w, clock, s) && !InMemory(s.cache, arn, machine)
    ensures InMemory(LoadOnce(s.cache, s.file, clock), arn, machine) <==> FileBrings(s, arn, machine)
  {
    if s.file.Some? {
      var m :| s.file.value.details == EncodeAll(m, clock) && DetailsTrue(w, s.now, m);
      TrueDocLoads(w, s.now, clock, m);
      hide Lawful, DetailsTrue, EnteredTrue, DecodeAll, Readable, DocTrue;
    }
  }

  lemma {:induction false} ListingForgets(c: Cache, machine: string, listed: set<string>, arn: string)
    requires arn !in listed
    ensures !InMemory(ListingStep(c, machine, listed), arn, machine)
  {
  }

  lemma {:induction false} ListingKeeps(c: Cache, m: string, listed: set<string>, arn: string, machine: string)
    requires m != machine || arn in listed
    ensures InMemory(ListingStep(c, m, listed), arn, machine) <==> InMemory(c, arn, machine)
  {
  }

  /** One event brings an execution back into memory exactly when it is one of those. */
  lemma {:induction false} ComesBackIff(w: World, clock: Clock, s: System, e: Event, arn: string, machine: string)
    requires Lawful(w) && clock.Faithful() && Inv(w, clock, s) && Possible(w, s, e)
    requires arn != "" && !InMemory(s.cache, arn, machine)
    ensures InMemory(Step(w, clock, s, e).cache, arn, machine) <==> Returns(w, s, e, arn, machine)
  {
    LoadBrings(w, clock, s, arn, machine);
    hide Lawful, Inv, LoadOnce, FileBrings;
    match e
    case Listing(m, listed) =>
      hide ListingStep, InMemory;
      var loaded := LoadOnce(s.cache, s.file, clock);
      if m == machine && arn !in listed {
        ListingForgets(loaded, machine, listed, arn);
      } else {
        ListingKeeps(loaded, m, listed, arn, machine);
      }
    case _ =>
  }

  // ------------------------------------------------------------------------- over whole runs

  /** Right after `since` a listing of `machine` omitted `arn`, and nothing has brought it back. */
  ghost predicate Forgotten(w: World, clock: Clock, since: Run, run: Run, arn: string, machine: string)
    requires Happens(w, clock, run)
  {
    match run
    case Begin => false
    case And(before, e) =>
      || (before == since && e.Listing? && e.machine == machine && arn !in e.listed)
      || (Forgotten(w, clock, since, before, arn, machine) && !Returns(w, After(w, clock, before), e, arn, machine))
  }

  lemma {:induction false} DocShowsMemory(c: Cache, clock: Clock, arn: string, machine: string)
    ensures InDoc(DocOf(c, clock), arn, machine) <==> InMemory(c, arn, machine)
  {
  }

  /** Every document that holds `arn` was there before. */
  ghost predicate NoNewDoc(s: System, known: set<Doc>, arn: string, machine: string) {
    forall doc :: doc in Docs(s) && InDoc(doc, arn, machine) ==> doc in known
  }

  lemma {:induction false} NoNewDocNext(w: World, clock: Clock, s: System, e: Event,
                                        known: set<Doc>, arn: string, machine: string)
    requires Possible(w, s, e) && NoNewDoc(s, known, arn, machine)
    requires e.Take? ==> !InMemory(s.cache, arn, machine)
    ensures NoNewDoc(Step(w, clock, s, e), known, arn, machine)
  {
    DocShowsMemory(s.cache, clock, arn, machine);
    hide LoadOnce, ListingStep, DescribeStep, EnteredStep, DocOf, InDoc, InMemory, StoredDetail, StoredEntered;
  }

  /** What a listing omits stays out of memory, and out of every document but those that were there
      when the listing was recorded, until one of those events brings it back. */
  lemma {:induction false} StaysForgotten(w: World, clock: Clock, since: Run, run: Run, arn: string, machine: string)
    requires Lawful(w) && clock.Faithful() && arn != "" && Happens(w, clock, run)
    requires Forgotten(w, clock, since, run, arn, machine)
    ensures Happens(w, clock, since)
    ensures !InMemory(After(w, clock, run).cache, arn, machine)
    ensures NoNewDoc(After(w, clock, run), Docs(After(w, clock, since)), arn, machine)
  {
    var before, e := run.before, run.event;
    var s := After(w, clock, before);
    if before == since && e.Listing? && e.machine == machine && arn !in e.listed {
      ListingForgets(LoadOnce(s.cache, s.file, clock), machine, e.listed, arn);
      hide LoadOnce, ListingStep, InDoc, Returns, InMemory;
    } else {
      StaysForgotten(w, clock, since, before, arn, machine);
      RunKeepsTruth(w, clock, before);
      hide Inv, Lawful, Step, Returns, InMemory, NoNewDoc, Docs;
      ComesBackIff(w, clock, s, e, arn, machine);
      NoNewDocNext(w, clock, s, e, Docs(After(w, clock, since)), arn, machine);
    }
  }

  /** Every answer about `arn` was stored under its machine. */
  ghost predicate StoredUnder(run: Run, arn: string, machine: string) {
    match run
    case Begin => true
    case And(before, e) => StoredUnder(before, arn, machine) && StoresUnder(e, arn, machine)
  }

  predicate StoresUnder(e: Event, arn: string, machine: string) {
    match e
    case Describe(a, _, owner) => a == arn ==> owner == Some(machine)
    case Enter(a, _, _, owner, _) => a == arn ==> owner == Some(machine)
    case _ => true
  }

  /** `arn` is filed under `machine` or not at all. */
  predicate FiledOnlyUnder<V>(m: Entries<V>, arn: string, machine: string) {
    arn in m ==> m[arn].machine == Some(machine)
  }

  ghost predicate OneMachine(s: System, arn: string, machine: string) {
    && FiledOnlyUnder(s.cache.details, arn, machine) && FiledOnlyUnder(s.cache.entered, arn, machine)
    && forall doc :: doc in Docs(s) ==>
         FiledOnlyUnder(doc.details, arn, machine) && FiledOnlyUnder(doc.entered, arn, machine)
  }

  lemma {:induction false} OneMachineNext(w: World, clock: Clock, s: System, e: Event, arn: string, machine: string)
    requires Possible(w, s, e) && OneMachine(s, arn, machine) && StoresUnder(e, arn, machine)
    ensures OneMachine(Step(w, clock, s, e), arn, machine)
  {
    hide Decode, Encode, ChangeTag;
  }

  lemma {:induction false} OneMachineAlways(w: World, clock: Clock, run: Run, arn: string, machine: string)
    requires Happens(w, clock, run) && StoredUnder(run, arn, machine)
    ensures OneMachine(After(w, clock, run), arn, machine)
  {
    if run.And? {
      hide OneMachine, Step, Possible;
      OneMachineAlways(w, clock, run.before, arn, machine);
      OneMachineNext(w, clock, After(w, clock, run.before), run.event, arn, machine);
    } else {
      assert Docs(START) == {};
    }
  }

  /** So an execution a listing omitted is not answered from memory until it is brought back,
      whatever record it is asked for with. */
  lemma {:induction false} ForgottenIsNotServed(w: World, clock: Clock, since: Run, run: Run,
                                                arn: string, machine: string,
                                                tag: Option<Tag>)
    requires Lawful(w) && clock.Faithful() && arn != "" && Happens(w, clock, run)
    requires Forgotten(w, clock, since, run, arn, machine) && StoredUnder(run, arn, machine)
    ensures Hit(After(w, clock, run).cache.details, arn, tag) == None
    ensures Hit(After(w, clock, run).cache.entered, arn, tag) == None
  {
    StaysForgotten(w, clock, since, run, arn, machine);
    OneMachineAlways(w, clock, run, arn, machine);
    hide Lawful, After, Happens, Forgotten, StoredUnder, NoNewDoc;
  }

  // ---------------------------------------------------------------------------- and comes back

  /** A document taken before the listing and written after it, then a restart. */
  ghost function OldDocument(r: Run, doc: Doc, machine: string): Run {
    And(And(And(And(And(r, Take(false)), Listing(machine, {})), Write(doc)), Restart(true)), Load)
  }

  /** From any run that holds something to persist: what the listing omitted is served again. */
  lemma {:induction false} OldDocumentBringsBack(w: World, clock: Clock, r: Run, arn: string, machine: string)
    requires Lawful(w) && clock.Faithful() && Happens(w, clock, r)
    requires var c := After(w, clock, r).cache; c.loaded && c.stored && c.dirty && Filed(c.details, arn, machine)
    ensures var c := After(w, clock, r).cache; var run := OldDocument(r, DocOf(c, clock), machine);
      && Happens(w, clock, run)
      && arn in After(w, clock, run).cache.details && After(w, clock, run).cache.details[arn] == c.details[arn]
  {
    var s := After(w, clock, r);
    var doc := DocOf(s.cache, clock);
    RunKeepsTruth(w, clock, r);
    TrueDocLoads(w, s.now, clock, s.cache.details);
    hide Lawful, DetailsTrue, Inv, DocOf, Filed;
    OldDocumentWritten(w, clock, r, doc, machine);
    hide OldDocument, Happens, After;
    LoadsBack(s.cache, clock);
  }

  /** Everything up to the restart: the file holds the document taken before the listing. */
  lemma {:induction false} OldDocumentWritten(w: World, clock: Clock, r: Run, doc: Doc, machine: string)
    requires Happens(w, clock, r) && Persists(After(w, clock, r).cache, false)
    requires doc == DocOf(After(w, clock, r).cache, clock)
    ensures Happens(w, clock, OldDocument(r, doc, machine))
    ensures After(w, clock, OldDocument(r, doc, machine)).cache
      == LoadOnce(Cache(map[], map[], true, false, false), Some(doc), clock)
  {
    hide DocOf, LoadOnce, ListingStep;
    var taken := And(r, Take(false));
    assert Happens(w, clock, taken) && doc in After(w, clock, taken).pending;
    var listed := And(taken, Listing(machine, {}));
    assert Happens(w, clock, listed) && doc in After(w, clock, listed).pending;
    var written := And(listed, Write(doc));
    assert Happens(w, clock, written) && After(w, clock, written).file == Some(doc);
    var restarted := And(written, Restart(true));
    assert Happens(w, clock, restarted) && After(w, clock, restarted).file == Some(doc);
  }

  lemma {:induction false} LoadsBack(c: Cache, clock: Clock)
    requires Readable(EncodeAll(c.details, clock), clock)
    requires DecodeAll(EncodeAll(c.details, clock), clock) == c.details
    ensures LoadOnce(Cache(map[], map[], true, false, false), Some(DocOf(c, clock)), clock).details == c.details
  {
    hide EncodeAll, DecodeAll, Readable;
    assert c.details + map[] == c.details;
  }

  /** A thread that fetched before the listing stores after it: nothing asks whether the execution is
      still listed. */
  lemma {:induction false} LaterStoreBringsBack(w: World, clock: Clock, r: Run, arn: string, machine: string, at: nat)
    requires Happens(w, clock, r) && arn != "" && at <= After(w, clock, r).now && TagAt(w, arn, at).Some?
    ensures var run := And(And(r, Listing(machine, {})), Describe(arn, at, Some(machine)));
      && Happens(w, clock, run)
      && Hit(After(w, clock, run).cache.details, arn, TagAt(w, arn, at)) == Some(w(arn, at).value.detail)
  {
    var listed := And(r, Listing(machine, {}));
    assert After(w, clock, listed).now == After(w, clock, r).now;
    hide ListingStep, LoadOnce;
  }
}
