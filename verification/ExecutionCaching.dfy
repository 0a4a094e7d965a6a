/** `console/sf_execution_cache.py`: terminal executions' describe results and entered states, valid
    only against the latest listing. Every method below is one critical section of the source's
    lock; what runs between them (fetches, the disk write) belongs to the protocol. */
module ExecutionCaching {
  import opened Wrappers
  import opened StoreCodec

  /** What a listing summary, a describe response or a merged record says of one execution. */
  datatype Reading = Reading(status: string, stop: Option<string>, redrives: nat)

  datatype Tag = Tag(status: string, stop: string, redrives: nat)

  predicate Terminal(status: string) { status in ["SUCCEEDED", "FAILED", "TIMED_OUT", "ABORTED"] }

  /** The change token; None means "never reuse, always fetch". */
  function ChangeTag(r: Reading): Option<Tag> {
    if !Terminal(r.status) || r.stop.None? || r.stop.value == "" then None
    else Some(Tag(r.status, r.stop.value, r.redrives))
  }

  datatype Entry<+V> = Entry(machine: Option<string>, tag: Tag, value: V)

  type Entries<+V> = map<string, Entry<V>>

  /** The stored document: values tagged for JSON. */
  datatype Doc = Doc(details: Entries<Json>, entered: Entries<seq<string>>)

  datatype Cache = Cache(
    details: Entries<Json>, entered: Entries<seq<string>>, stored: bool, loaded: bool, dirty: bool)

  // ---------------------------------------------------------------- what each section does

  /** The entry whose tag the caller's reading matches. */
  function Hit<V>(m: Entries<V>, arn: string, tag: Option<Tag>): Option<V> {
    if arn != "" && tag.Some? && arn in m && m[arn].tag == tag.value then Some(m[arn].value) else None
  }

  function Listed<V>(m: Entries<V>, machine: string, listed: set<string>): Entries<V> {
    map arn | arn in m && (m[arn].machine != Some(machine) || arn in listed) :: m[arn]
  }

  function Put<V>(m: Entries<V>, arn: string, entry: Option<Entry<V>>): Entries<V> {
    match entry
    case Some(e) => m[arn := e]
    case None => m - {arn}
  }

  function EncodeAll(m: Entries<Json>, clock: Clock): Entries<Json> {
    map arn | arn in m :: m[arn].(value := Encode(m[arn].value, clock))
  }

  predicate Readable(m: Entries<Json>, clock: Clock) { forall arn :: arn in m ==> Decode(m[arn].value, clock).Some? }

  /** The entries a readable document holds; a value that is no object is dropped. */
  function DecodeAll(m: Entries<Json>, clock: Clock): Entries<Json>
    requires Readable(m, clock)
  {
    map arn | arn in m && Decode(m[arn].value, clock).value.Dict? ::
      m[arn].(value := Decode(m[arn].value, clock).value)
  }

  /** `_load_locked`: once, and entries already in memory win; an unreadable store is a cold start. */
  function LoadOnce(c: Cache, file: Option<Doc>, clock: Clock): Cache {
    if c.loaded then c
    else if !c.stored || file.None? || !Readable(file.value.details, clock) then c.(loaded := true)
    else c.(loaded := true, details := DecodeAll(file.value.details, clock) + c.details,
            entered := file.value.entered + c.entered)
  }

  function ListingStep(c: Cache, machine: string, listed: set<string>): Cache {
    var details, entered := Listed(c.details, machine, listed), Listed(c.entered, machine, listed);
    c.(details := details, entered := entered,
       dirty := c.dirty || details.Keys != c.details.Keys || entered.Keys != c.entered.Keys)
  }

  function DescribeStep(c: Cache, arn: string, entry: Option<Entry<Json>>): Cache {
    if arn == "" then c
    else c.(details := Put(c.details, arn, entry), dirty := c.dirty || entry.Some? || arn in c.details)
  }

  function EnteredStep(c: Cache, arn: string, entry: Option<Entry<seq<string>>>): Cache {
    if arn == "" then c
    else c.(entered := Put(c.entered, arn, entry), dirty := c.dirty || entry.Some? || arn in c.entered)
  }

  function DocOf(c: Cache, clock: Clock): Doc { Doc(EncodeAll(c.details, clock), c.entered) }

  /** `if not path or (not self._dirty and not force)`, negated. */
  predicate Persists(c: Cache, force: bool) { c.stored && (c.dirty || force) }

  // ------------------------------------------------------------------------------ the class

  lemma {:induction false} ListedOneMore<V>(m: Entries<V>, machine: string, listed: set<string>, todo: set<string>,
        arn: string)
    requires arn in todo && todo <= m.Keys
    ensures var kept := map a | a in m && (a in todo || m[a].machine != Some(machine) || a in listed) :: m[a];
      var next := map a | a in m && (a in todo - {arn} || m[a].machine != Some(machine) || a in listed) :: m[a];
      next == if m[arn].machine == Some(machine) && arn !in listed then kept - {arn} else kept
  {
  }

  /** Drop what a complete listing of `machine` omits. */
  method DropOmitted<V>(m: Entries<V>, machine: string, listed: set<string>) returns (kept: Entries<V>, dropped: bool)
    ensures kept == Listed(m, machine, listed)
    ensures dropped == (kept.Keys != m.Keys)
  {
    kept, dropped := m, false;
    var todo := m.Keys;
    assert (map a | a in m && (a in todo || m[a].machine != Some(machine) || a in listed) :: m[a]) == m;
    while todo != {}
      invariant todo <= m.Keys && todo <= kept.Keys <= m.Keys
      invariant kept == map a | a in m && (a in todo || m[a].machine != Some(machine) || a in listed) :: m[a]
      invariant dropped == (kept.Keys != m.Keys)
      decreases todo
    {
      var arn :| arn in todo;
      ListedOneMore(m, machine, listed, todo, arn);
      if m[arn].machine == Some(machine) && arn !in listed {
        kept, dropped := kept - {arn}, true;
        assert arn in m.Keys && arn !in kept.Keys;
      }
      todo := todo - {arn};
    }
  }

  class ExecutionCache {
    const clock: Clock
    var details: Entries<Json>
    var entered: Entries<seq<string>>
    var stored: bool
    var loaded: bool
    var dirty: bool

    function State(): Cache
      reads this
    {
      Cache(details, entered, stored, loaded, dirty)
    }

    /** A process start: nothing in memory, the store unread. */
    constructor (clock: Clock, stored: bool)
      ensures this.clock == clock && State() == Cache(map[], map[], stored, !stored, false)
    {
      this.clock := clock;
      details, entered := map[], map[];
      this.stored, loaded, dirty := stored, !stored, false;
    }

    method UseStore(stored: bool)
      modifies this
      ensures State() == old(State()).(stored := stored, loaded := !stored, dirty := false)
    {
      this.stored, loaded, dirty := stored, !stored, false;
    }

    /** `file` is what opening the store at this instant reads; None is a file that is missing,
        unreadable or of another version. */
    method LoadLocked(file: Option<Doc>)
      modifies this
      ensures State() == LoadOnce(old(State()), file, clock)
    {
      if loaded {
        return;
      }
      loaded := true;
      if !stored || file == None || !Readable(file.value.details, clock) {
        return;
      }
      details := DecodeAll(file.value.details, clock) + details;
      entered := file.value.entered + entered;
    }

    method ObserveListing(machine: string, listed: set<string>, file: Option<Doc>)
      modifies this
      ensures State() == ListingStep(LoadOnce(old(State()), file, clock), machine, listed)
    {
      hide LoadOnce, Listed;
      LoadLocked(file);
      var droppedDetails, droppedEntered;
      details, droppedDetails := DropOmitted(details, machine, listed);
      entered, droppedEntered := DropOmitted(entered, machine, listed);
      dirty := dirty || droppedDetails || droppedEntered;
    }

    method DescribeLookup(arn: string, summary: Reading) returns (hit: Option<Json>)
      ensures hit == Hit(details, arn, ChangeTag(summary))
    {
      var tag := ChangeTag(summary);
      hit := None;
      if arn != "" && tag.Some? && arn in details && details[arn].tag == tag.value {
        hit := Some(details[arn].value);
      }
    }

    /** After a fetch: the response's own reading decides whether it may be kept. */
    method DescribeStore(arn: string, fetched: Reading, machine: Option<string>, detail: Json)
      modifies this`details, this`dirty
      ensures State() == DescribeStep(old(State()), arn, StoredDetail(fetched, machine, detail))
    {
      var tag := ChangeTag(fetched);
      if arn != "" {
        if tag.Some? {
          details, dirty := details[arn := Entry(machine, tag.value, detail)], true;
        } else if arn in details {
          details, dirty := details - {arn}, true;
        }
      }
    }

    method EnteredLookup(arn: string, rec: Reading) returns (hit: Option<seq<string>>)
      ensures hit == Hit(entered, arn, ChangeTag(rec))
    {
      var tag := ChangeTag(rec);
      hit := None;
      if arn != "" && tag.Some? && arn in entered && entered[arn].tag == tag.value {
        hit := Some(entered[arn].value);
      }
    }

    /** After a fetch: kept under the tag of the record it was asked for; an unreadable history is
        never kept. */
    method EnteredStore(arn: string, rec: Reading, machine: Option<string>, names: Option<seq<string>>)
      modifies this`entered, this`dirty
      ensures State() == EnteredStep(old(State()), arn, StoredEntered(rec, machine, names))
    {
      var tag := ChangeTag(rec);
      if arn != "" {
        if tag.Some? && names.Some? {
          entered, dirty := entered[arn := Entry(machine, tag.value, names.value)], true;
        } else if arn in entered {
          entered, dirty := entered - {arn}, true;
        }
      }
    }

    /** The first half of `persist`: take the document to write. */
    method PersistSnapshot(force: bool) returns (doc: Option<Doc>)
      modifies this`dirty
      ensures var c := old(State());
        if Persists(c, force) then doc == Some(DocOf(c, clock)) && State() == c.(dirty := false)
        else doc == None && State() == c
      ensures doc.Some? <==> stored && (force || old(dirty))
    {
      doc := None;
      if stored && (dirty || force) {
        doc, dirty := Some(Doc(EncodeAll(details, clock), entered)), false;
      }
    }

    method PersistFailed()
      modifies this`dirty
      ensures State() == old(State()).(dirty := true)
    {
      dirty := true;
    }

    method Clear()
      modifies this
      ensures State() == old(State()).(details := map[], entered := map[], dirty := false)
    {
      details, entered, dirty := map[], map[], false;
    }
  }

  function StoredDetail(fetched: Reading, machine: Option<string>, detail: Json): Option<Entry<Json>> {
    match ChangeTag(fetched)
    case None => None
    case Some(tag) => Some(Entry(machine, tag, detail))
  }

  function StoredEntered(rec: Reading, machine: Option<string>,
        names: Option<seq<string>>): Option<Entry<seq<string>>> {
    match (ChangeTag(rec), names)
    case (Some(tag), Some(value)) => Some(Entry(machine, tag, value))
    case _ => None
  }
}
