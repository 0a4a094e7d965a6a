/** The body cache over whole runs: objects are written and deleted while threads list, look up,
    fetch and store in any order. */
module BodyProtocol {
  import opened Wrappers
  import opened BodyCaching

  datatype Object = Object(header: Header, body: Body)

  /** What the store holds under each name at each instant. */
  type World = (Name, nat) -> Option<Object>

  function TagAt(w: World, n: Name, t: nat): Option<Tag> {
    match w(n, t)
    case None => None
    case Some(x) => TagOf(x.header)
  }

  predicate BodyAt(w: World, n: Name, t: nat, body: Body) { w(n, t).Some? && w(n, t).value.body == body }

  /** A tag determines the content it was taken from. */
  ghost predicate Lawful(w: World) {
    forall n, t, u | TagAt(w, n, t).Some? && TagAt(w, n, t) == TagAt(w, n, u) ::
      w(n, t).value.body == w(n, u).value.body
  }

  /** Two headers that say the objects they came with hold the same bytes: one ETag, or none on either
      and one write stamp and size. */
  predicate SameContent(h: Header, k: Header) {
    if h.etag != "" || k.etag != "" then h.etag == k.etag
    else h.modified.Some? && h.size.Some? && h.modified == k.modified && h.size == k.size
  }

  /** The store keeps that word, of any one name. */
  ghost predicate Honest(w: World) {
    forall n, t, u | w(n, t).Some? && w(n, u).Some? && SameContent(w(n, t).value.header, w(n, u).value.header) ::
      w(n, t).value.body == w(n, u).value.body
  }

  /** Tags match exactly when the headers say so; two different ETags never do. */
  lemma {:induction false} TagsMatchIff(h: Header, k: Header)
    ensures TagOf(h).Some? && TagOf(h) == TagOf(k) <==> SameContent(h, k)
  {
  }

  lemma {:induction false} HonestIsLawful(w: World)
    ensures Honest(w) <==> Lawful(w)
  {
    forall h, k ensures TagOf(h).Some? && TagOf(h) == TagOf(k) <==> SameContent(h, k) {
      TagsMatchIff(h, k);
    }
    hide TagOf, SameContent;
  }

  datatype System = System(now: nat, cache: Cache)

  /** `at` is the instant a listing was taken or a fetch made, however much later it is recorded. */
  datatype Event =
    | Tick
    | Listing(bucket: string, prefix: string, tags: map<string, Option<Tag>>, at: nat)
    | Fetched(name: Name, at: nat)
    | Clear

  /** A complete listing of `prefix` at one instant: every name there was, with its tag. */
  ghost predicate Snapshot(w: World, bucket: string, prefix: string, tags: map<string, Option<Tag>>, at: nat) {
    && (forall k :: k in tags <==> prefix <= k && w(Name(bucket, k), at).Some?)
    && forall k :: k in tags ==> tags[k] == TagAt(w, Name(bucket, k), at)
  }

  ghost predicate Possible(w: World, s: System, e: Event) {
    match e
    case Listing(bucket, prefix, tags, at) => at <= s.now && Snapshot(w, bucket, prefix, tags, at)
    case Fetched(n, at) => at <= s.now && w(n, at).Some?
    case _ => true
  }

  ghost function Step(w: World, s: System, e: Event): System
    requires Possible(w, s, e)
  {
    match e
    case Tick => s.(now := s.now + 1)
    case Listing(bucket, prefix, tags, at) => s.(cache := ListingStep(s.cache, bucket, prefix, tags))
    case Fetched(n, at) => s.(cache := StoreStep(s.cache, n, w(n, at).value.body, TagAt(w, n, at)))
    case Clear => s.(cache := Cache(map[], map[]))
  }

  datatype Run = Begin | And(before: Run, event: Event)

  ghost predicate Happens(w: World, run: Run)
    decreases run, 0
  {
    match run
    case Begin => true
    case And(before, e) => Happens(w, before) && Possible(w, After(w, before), e)
  }

  ghost function After(w: World, run: Run): System
    requires Happens(w, run)
    decreases run, 1
  {
    match run
    case Begin => System(0, Cache(map[], map[]))
    case And(before, e) => Step(w, After(w, before), e)
  }

  // ------------------------------------------------------------------------- what is kept

  ghost predicate ListedAt(w: World, n: Name, t: nat, tag: Option<Tag>) {
    w(n, t).Some? && TagAt(w, n, t) == tag
  }

  /** The listed tag is what some snapshot found. */
  ghost predicate WasListed(w: World, now: nat, n: Name, tag: Option<Tag>) {
    exists t: nat :: t <= now && ListedAt(w, n, t, tag)
  }

  /** The body was the object's when it carried the tag. */
  ghost predicate WasFetched(w: World, now: nat, n: Name, kept: Kept) {
    exists t: nat :: t <= now && TagAt(w, n, t) == Some(kept.tag) && BodyAt(w, n, t, kept.body)
  }

  ghost predicate Inv(w: World, s: System) {
    && s.cache.bodies.Keys <= s.cache.listed.Keys
    && (forall n :: n in s.cache.listed ==> WasListed(w, s.now, n, s.cache.listed[n]))
    && forall n :: n in s.cache.bodies ==> WasFetched(w, s.now, n, s.cache.bodies[n])
  }

  lemma {:induction false} TruthLasts(w: World, s: System)
    requires Inv(w, s)
    ensures Inv(w, s.(now := s.now + 1))
  {
    forall n, tag | WasListed(w, s.now, n, tag) ensures WasListed(w, s.now + 1, n, tag) {
      var t: nat :| t <= s.now && ListedAt(w, n, t, tag);
      assert t <= s.now + 1;
    }
    forall n, kept | WasFetched(w, s.now, n, kept) ensures WasFetched(w, s.now + 1, n, kept) {
      var t: nat :| t <= s.now && TagAt(w, n, t) == Some(kept.tag) && BodyAt(w, n, t, kept.body);
      assert t <= s.now + 1;
    }
    hide WasListed, WasFetched;
  }

  lemma {:induction false} ListingKeepsTruth(w: World, s: System, bucket: string, prefix: string,
                                             tags: map<string, Option<Tag>>, at: nat)
    requires Inv(w, s) && at <= s.now && Snapshot(w, bucket, prefix, tags, at)
    ensures Inv(w, s.(cache := ListingStep(s.cache, bucket, prefix, tags)))
  {
    forall k | k in tags ensures WasListed(w, s.now, Name(bucket, k), tags[k]) {
      assert ListedAt(w, Name(bucket, k), at, tags[k]);
    }
    hide WasListed, WasFetched, Omits, Snapshot;
  }

  lemma {:induction false} StoreKeepsTruth(w: World, s: System, n: Name, at: nat)
    requires Inv(w, s) && at <= s.now && w(n, at).Some?
    ensures Inv(w, s.(cache := StoreStep(s.cache, n, w(n, at).value.body, TagAt(w, n, at))))
  {
    if TagAt(w, n, at).Some? {
      assert BodyAt(w, n, at, w(n, at).value.body);
      assert WasFetched(w, s.now, n, Kept(TagAt(w, n, at).value, w(n, at).value.body));
    }
    hide WasListed, WasFetched, TagAt, BodyAt;
  }

  lemma {:induction false} StepKeepsTruth(w: World, s: System, e: Event)
    requires Inv(w, s) && Possible(w, s, e)
    ensures Inv(w, Step(w, s, e))
  {
    match e
    case Tick => TruthLasts(w, s);
    case Listing(bucket, prefix, tags, at) => ListingKeepsTruth(w, s, bucket, prefix, tags, at);
    case Fetched(n, at) => StoreKeepsTruth(w, s, n, at);
    case Clear =>
  }

  /** In every run, what is kept is listed, what is listed was there, and what is kept was true. */
  lemma {:induction false} RunKeepsTruth(w: World, run: Run)
    requires Happens(w, run)
    ensures Inv(w, After(w, run))
  {
    hide Step, Possible;
    if run.And? {
      RunKeepsTruth(w, run.before);
      hide Inv;
      StepKeepsTruth(w, After(w, run.before), run.event);
    }
  }

  // --------------------------------------------------------------------- what is served

  /** A body served from memory was the object's body at the very instant of a listing that carried
      the tag it was matched on. */
  lemma {:induction false} ServedBodyWasCurrent(w: World, run: Run, n: Name)
    requires Honest(w) && Happens(w, run) && Hit(After(w, run).cache, n).Some?
    ensures n in After(w, run).cache.listed
    ensures exists t: nat :: t <= After(w, run).now && ListedAt(w, n, t, After(w, run).cache.listed[n])
    ensures forall t: nat :: ListedAt(w, n, t, After(w, run).cache.listed[n]) ==>
      BodyAt(w, n, t, Hit(After(w, run).cache, n).value)
  {
    RunKeepsTruth(w, run);
    HonestIsLawful(w);
    var s := After(w, run);
    assert WasListed(w, s.now, n, s.cache.listed[n]);
    assert WasFetched(w, s.now, n, s.cache.bodies[n]);
    var u: nat :| u <= s.now && TagAt(w, n, u) == Some(s.cache.bodies[n].tag) &&
      BodyAt(w, n, u, s.cache.bodies[n].body);
    hide Inv, After, Happens;
    forall t: nat | ListedAt(w, n, t, s.cache.listed[n]) ensures BodyAt(w, n, t, s.cache.bodies[n].body) {
      assert TagAt(w, n, t) == TagAt(w, n, u);
    }
  }

  /** A listing speaks for its own bucket and prefix: there it names exactly what it carries, with its
      tags, and elsewhere nothing changes; bodies of names it omits there are dropped, and no other. */
  lemma {:induction false} ListingMeaning(
    c: Cache, bucket: string, prefix: string, tags: map<string, Option<Tag>>, n: Name)
    ensures var after, here, told := ListingStep(c, bucket, prefix, tags), n.bucket == bucket && prefix <= n.key,
        n.bucket == bucket && n.key in tags;
      && (n in after.listed <==> told || (n in c.listed && !here))
      && (told ==> after.listed[n] == tags[n.key])
      && (n in after.listed && !told ==> after.listed[n] == c.listed[n])
      && (n in after.bodies <==> n in c.bodies && (told || !here))
      && (n in after.bodies ==> after.bodies[n] == c.bodies[n])
  {
    assert n.bucket == bucket ==> n == Name(bucket, n.key);
  }

  /** What a fetch stores is what a later look-up is answered with, exactly when the listing that stands
      and the fetch carried headers that say the same content, whatever else is going on. */
  lemma {:induction false} FetchedIsServedIff(c: Cache, n: Name, body: Body, fetched: Header, listed: Header)
    requires n in c.listed && c.listed[n] == TagOf(listed)
    ensures Hit(StoreStep(c, n, body, TagOf(fetched)), n) == Some(body) <==> SameContent(fetched, listed)
    ensures Hit(StoreStep(c, n, body, TagOf(fetched)), n).Some? ==> SameContent(fetched, listed)
  {
    TagsMatchIff(fetched, listed);
    hide SameContent, TagOf;
  }

  /** A look-up of a name no listing has named is never answered. */
  lemma {:induction false} UnlistedIsNeverServed(c: Cache, n: Name, body: Body, fetched: Header)
    requires n !in c.listed
    ensures Hit(StoreStep(c, n, body, TagOf(fetched)), n) == None
    ensures n !in StoreStep(c, n, body, TagOf(fetched)).bodies
  {
  }

  /** A listing has omitted `n` and none has named it since. */
  ghost predicate OmittedSince(run: Run, n: Name) {
    match run
    case Begin => false
    case And(before, e) => (
      match e
      case Listing(bucket, prefix, tags, _) =>
        Omits(n, bucket, prefix, tags) || (OmittedSince(before, n) && !(n.bucket == bucket && n.key in tags))
      case _ => OmittedSince(before, n))
  }

  lemma {:induction false} OmittedIsNotListed(w: World, run: Run, n: Name)
    requires Happens(w, run) && OmittedSince(run, n)
    ensures n !in After(w, run).cache.listed
  {
    if OmittedSince(run.before, n) {
      OmittedIsNotListed(w, run.before, n);
    }
    hide Happens;
  }

  /** A read that starts after a listing omits its key is never answered from memory, whatever
      fetches were still under way. */
  lemma {:induction false} OmittedIsNeverServed(w: World, run: Run, n: Name)
    requires Happens(w, run) && OmittedSince(run, n)
    ensures Hit(After(w, run).cache, n) == None && n !in After(w, run).cache.bodies
  {
    OmittedIsNotListed(w, run, n);
    RunKeepsTruth(w, run);
    hide After, Happens, OmittedSince;
  }
}
