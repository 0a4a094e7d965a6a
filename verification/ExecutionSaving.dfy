/** What the execution cache answers and what it still has to save: what one store leaves to be served,
    which entries a load brings, and that no change goes unsaved
    (`console/sf_execution_cache.py:180-332`). */
module ExecutionSaving {
  import opened Wrappers
  import opened StoreCodec
  import opened ExecutionCaching
  import opened ExecutionProtocol

  // ------------------------------------------------------------------------- what is answered

  /** Nothing is filed or forgotten under any other name. */
  ghost predicate OthersStand<V>(before: Entries<V>, after: Entries<V>, arn: string) {
    forall a :: a != arn ==> (a in after <==> a in before) && (a in before ==> after[a] == before[a])
  }

  /** A describe response is what the next look-up is answered with exactly when it was final and the
      look-up carries the same reading. */
  lemma {:induction false} DescribedIsServedIff(
    c: Cache, arn: string, fetched: Reading, machine: Option<string>, detail: Json, summary: Reading)
    ensures var after := DescribeStep(c, arn, StoredDetail(fetched, machine, detail));
      && (arn != "" ==>
            (Hit(after.details, arn, ChangeTag(summary)) == Some(detail) <==> Final(fetched) && fetched == summary)
            && (Hit(after.details, arn, ChangeTag(summary)).Some? ==> Final(fetched) && fetched == summary))
      && (arn == "" ==> Hit(after.details, arn, ChangeTag(summary)) == None && after == c)
      && after.entered == c.entered
      && OthersStand(c.details, after.details, arn)
  {
    TagsMatchIff(fetched, summary);
    hide ChangeTag;
  }

  /** Entered states are exactly when they were readable as well. */
  lemma {:induction false} EnteredIsServedIff(
    c: Cache, arn: string, rec: Reading, machine: Option<string>, names: Option<seq<string>>, later: Reading)
    ensures var after := EnteredStep(c, arn, StoredEntered(rec, machine, names));
      && (arn != "" ==>
            (Hit(after.entered, arn, ChangeTag(later)).Some? <==> names.Some? && Final(rec) && rec == later)
            && (names.Some? && Final(rec) && rec == later ==> Hit(after.entered, arn, ChangeTag(later)) == names))
      && (arn == "" ==> Hit(after.entered, arn, ChangeTag(later)) == None && after == c)
      && after.details == c.details
      && OthersStand(c.entered, after.entered, arn)
  {
    TagsMatchIff(rec, later);
    hide ChangeTag;
  }

  // ------------------------------------------------------------------------------ what a load brings

  /** What one load leaves under `arn`: what memory held, else what the file's document does. */
  lemma {:induction false} LoadPrefersMemory(c: Cache, doc: Doc, clock: Clock, arn: string)
    requires c.stored && !c.loaded && Readable(doc.details, clock)
    ensures var after := LoadOnce(c, Some(doc), clock);
      && after.loaded && after.stored && after.dirty == c.dirty
      && (arn in c.details ==> arn in after.details && after.details[arn] == c.details[arn])
      && (arn !in c.details ==>
            (arn in after.details <==> arn in doc.details && Decode(doc.details[arn].value, clock).value.Dict?))
      && (arn !in c.details && arn in after.details ==>
            && after.details[arn].tag == doc.details[arn].tag && after.details[arn].machine == doc.details[arn].machine
            && Some(after.details[arn].value) == Decode(doc.details[arn].value, clock))
      && (arn in c.entered ==> arn in after.entered && after.entered[arn] == c.entered[arn])
      && (arn !in c.entered ==> (arn in after.entered <==> arn in doc.entered))
      && (arn !in c.entered && arn in doc.entered ==> after.entered[arn] == doc.entered[arn])
  {
    hide Decode;
  }

  /** A store is read once: whatever it holds later, or if there is none, memory stays as it is. */
  lemma {:induction false} LoadIsOnce(c: Cache, file: Option<Doc>, clock: Clock)
    requires c.loaded || !c.stored || file.None? || !Readable(file.value.details, clock)
    ensures var after := LoadOnce(c, file, clock);
      after.loaded && after.details == c.details && after.entered == c.entered && after.dirty == c.dirty
  {
  }

  // ---------------------------------------------------------------------------- what is unsaved

  predicate SameMemory(c: Cache, d: Cache) { c.details == d.details && c.entered == d.entered }

  /** The event puts something into memory, or takes something out of it, that no document holds yet. */
  ghost predicate Changes(w: World, clock: Clock, s: System, e: Event)
    requires Possible(w, s, e)
  {
    match e
    case Listing(_, _) => !SameMemory(LoadOnce(s.cache, s.file, clock), Step(w, clock, s, e).cache)
    case Describe(_, _, _) => !SameMemory(s.cache, Step(w, clock, s, e).cache)
    case Enter(_, _, _, _, _) => !SameMemory(s.cache, Step(w, clock, s, e).cache)
    case WriteFails => true
    case _ => false
  }

  /** Something changed and no document has been taken since, nor the memory dropped. */
  ghost predicate Unsaved(w: World, clock: Clock, run: Run)
    requires Happens(w, clock, run)
  {
    match run
    case Begin => false
    case And(before, e) =>
      Changes(w, clock, After(w, clock, before), e)
      || (Unsaved(w, clock, before) && !e.Take? && !e.Clear? && !e.Restart?)
  }

  lemma {:induction false} ListingMarks(c: Cache, machine: string, listed: set<string>)
    ensures var after := ListingStep(c, machine, listed);
      && (SameMemory(c, after) || after.dirty) && (c.dirty ==> after.dirty) && after.stored == c.stored
  {
    var after := ListingStep(c, machine, listed);
    ListedKeeps(c.details, machine, listed);
    ListedKeeps(c.entered, machine, listed);
    hide Listed;
  }

  lemma {:induction false} ListedKeeps<V>(m: Entries<V>, machine: string, listed: set<string>)
    ensures Listed(m, machine, listed).Keys == m.Keys ==> Listed(m, machine, listed) == m
  {
    var r := Listed(m, machine, listed);
    if r.Keys == m.Keys {
      assert forall a :: a in m ==> a in r.Keys && r[a] == m[a];
    }
  }

  lemma {:induction false} StoresMark(c: Cache, arn: string, d: Option<Entry<Json>>, n: Option<Entry<seq<string>>>)
    ensures var after := DescribeStep(c, arn, d);
      && (SameMemory(c, after) || after.dirty) && (c.dirty ==> after.dirty) && after.stored == c.stored
    ensures var after := EnteredStep(c, arn, n);
      && (SameMemory(c, after) || after.dirty) && (c.dirty ==> after.dirty) && after.stored == c.stored
  {
    assert arn !in c.details ==> c.details - {arn} == c.details;
    assert arn !in c.entered ==> c.entered - {arn} == c.entered;
  }

  /** No change goes unsaved: until a document is taken, a persist has one to write. */
  lemma {:induction false} ChangesAreSaved(w: World, clock: Clock, run: Run)
    requires Happens(w, clock, run) && Unsaved(w, clock, run)
    ensures After(w, clock, run).cache.dirty
    ensures After(w, clock, run).cache.stored ==> Persists(After(w, clock, run).cache, false)
  {
    var s, e := After(w, clock, run.before), run.event;
    if !Changes(w, clock, s, e) {
      ChangesAreSaved(w, clock, run.before);
    }
    hide Happens, After, ListingStep, DescribeStep, EnteredStep, Unsaved;
    match e
    case Listing(machine, listed) => ListingMarks(LoadOnce(s.cache, s.file, clock), machine, listed);
    case Describe(arn, at, machine) =>
      StoresMark(s.cache, arn, StoredDetail(w(arn, at).value.reading, machine, w(arn, at).value.detail), None);
    case Enter(arn, read, at, machine, readable) =>
      var names := if readable then Some(w(arn, at).value.entered) else None;
      StoresMark(s.cache, arn, None, StoredEntered(w(arn, read).value.reading, machine, names));
    case _ =>
  }

  /** What a document holds is all of memory, each entry under its own tag and machine. */
  lemma {:induction false} TakenWhole(c: Cache, clock: Clock, arn: string)
    ensures var doc := DocOf(c, clock);
      && doc.entered == c.entered && doc.details.Keys == c.details.Keys
      && (arn in c.details ==>
            && doc.details[arn].tag == c.details[arn].tag && doc.details[arn].machine == c.details[arn].machine
            && doc.details[arn].value == Encode(c.details[arn].value, clock))
  {
    hide Encode;
  }
}
