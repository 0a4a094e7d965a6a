/** `console/s3_body_cache.py`: object bodies reused while a listing says they have not changed. Each
    method is one critical section of the source's lock. */
module BodyCaching {
  import opened Wrappers

  /** What a listing entry, or a response, says of one object's content. */
  datatype Header = Header(etag: string, modified: Option<string>, size: Option<nat>)

  datatype Tag = ETag(etag: string) | Written(modified: string, size: nat)

  /** The ETag when there is one, else the write stamp and size; None says nothing usable. */
  function TagOf(h: Header): Option<Tag> {
    if h.etag != "" then Some(ETag(h.etag))
    else if h.modified.None? || h.size.None? then None
    else Some(Written(h.modified.value, h.size.value))
  }

  datatype Name = Name(bucket: string, key: string)

  type Body = seq<bv8>

  datatype Kept = Kept(tag: Tag, body: Body)

  datatype Cache = Cache(listed: map<Name, Option<Tag>>, bodies: map<Name, Kept>)

  predicate Under(n: Name, bucket: string, prefix: string) { n.bucket == bucket && prefix <= n.key }

  predicate Omits(n: Name, bucket: string, prefix: string, tags: map<string, Option<Tag>>) {
    Under(n, bucket, prefix) && n.key !in tags
  }

  function Forget<V>(m: map<Name, V>, bucket: string, prefix: string, tags: map<string, Option<Tag>>): map<Name, V> {
    map n | n in m && !Omits(n, bucket, prefix, tags) :: m[n]
  }

  function Named(bucket: string, tags: map<string, Option<Tag>>): map<Name, Option<Tag>> {
    map k | k in tags :: Name(bucket, k) := tags[k]
  }

  /** The listed entries a walk has been through, `todo` being still ahead. */
  function Seen(tags: map<string, Option<Tag>>, todo: set<string>): map<string, Option<Tag>> {
    map k | k in tags && k !in todo :: tags[k]
  }

  function ListingStep(c: Cache, bucket: string, prefix: string, tags: map<string, Option<Tag>>): Cache {
    Cache(Forget(c.listed, bucket, prefix, tags) + Named(bucket, tags), Forget(c.bodies, bucket, prefix, tags))
  }

  /** The body in memory, when the latest listing of the name carried the tag it is filed under. */
  function Hit(c: Cache, n: Name): Option<Body> {
    if n in c.listed && n in c.bodies && c.listed[n] == Some(c.bodies[n].tag) then Some(c.bodies[n].body) else None
  }

  function StoreStep(c: Cache, n: Name, body: Body, tag: Option<Tag>): Cache {
    if tag.Some? && n in c.listed then c.(bodies := c.bodies[n := Kept(tag.value, body)])
    else c.(bodies := c.bodies - {n})
  }

  lemma {:induction false} ForgetOneMore<V>(m: map<Name, V>, bucket: string, prefix: string,
                                            tags: map<string, Option<Tag>>, todo: set<Name>, n: Name)
    requires n in todo && todo <= m.Keys
    ensures var kept := map x | x in m && (x in todo || !Omits(x, bucket, prefix, tags)) :: m[x];
      var next := map x | x in m && (x in todo - {n} || !Omits(x, bucket, prefix, tags)) :: m[x];
      next == if Omits(n, bucket, prefix, tags) then kept - {n} else kept
  {
    hide Omits;
  }

  method DropOmitted<V>(m: map<Name, V>, bucket: string, prefix: string, tags: map<string, Option<Tag>>)
    returns (kept: map<Name, V>)
    ensures kept == Forget(m, bucket, prefix, tags)
  {
    hide Omits;
    kept := m;
    var todo := m.Keys;
    assert (map x | x in m && (x in todo || !Omits(x, bucket, prefix, tags)) :: m[x]) == m;
    while todo != {}
      invariant todo <= m.Keys
      invariant kept == map x | x in m && (x in todo || !Omits(x, bucket, prefix, tags)) :: m[x]
      decreases todo
    {
      var n :| n in todo;
      ForgetOneMore(m, bucket, prefix, tags, todo, n);
      if Omits(n, bucket, prefix, tags) {
        kept := kept - {n};
      }
      todo := todo - {n};
    }
  }

  class ListedBodyCache {
    var listed: map<Name, Option<Tag>>
    var bodies: map<Name, Kept>

    function State(): Cache
      reads this
    {
      Cache(listed, bodies)
    }

    constructor ()
      ensures State() == Cache(map[], map[])
    {
      listed, bodies := map[], map[];
    }

    method ObserveListing(bucket: string, prefix: string, tags: map<string, Option<Tag>>)
      modifies this
      ensures State() == ListingStep(old(State()), bucket, prefix, tags)
    {
      hide Forget;
      listed := DropOmitted(listed, bucket, prefix, tags);
      bodies := DropOmitted(bodies, bucket, prefix, tags);
      ghost var before := listed;
      var todo := tags.Keys;
      while todo != {}
        invariant todo <= tags.Keys
        invariant bodies == Forget(old(bodies), bucket, prefix, tags)
        invariant listed == before + Named(bucket, Seen(tags, todo))
        decreases todo
      {
        var key :| key in todo;
        NameOneMore(before, bucket, tags, todo, key);
        listed := listed[Name(bucket, key) := tags[key]];
        todo := todo - {key};
      }
      assert Seen(tags, todo) == tags;
    }

    method ReadLookup(n: Name) returns (hit: Option<Body>)
      ensures hit == Hit(State(), n)
    {
      hit := None;
      if n in listed && listed[n].Some? && n in bodies && bodies[n].tag == listed[n].value {
        hit := Some(bodies[n].body);
      }
    }

    /** After a fetch: the bytes are filed under the tag that came with them. */
    method ReadStore(n: Name, body: Body, tag: Option<Tag>)
      modifies this`bodies
      ensures State() == StoreStep(old(State()), n, body, tag)
    {
      if tag.Some? && n in listed {
        bodies := bodies[n := Kept(tag.value, body)];
      } else {
        bodies := bodies - {n};
      }
    }

    method Clear()
      modifies this
      ensures State() == Cache(map[], map[])
    {
      listed, bodies := map[], map[];
    }
  }

  lemma {:induction false} NamedOneMore(bucket: string, fewer: map<string, Option<Tag>>, key: string, tag: Option<Tag>)
    requires key !in fewer
    ensures Named(bucket, fewer[key := tag]) == Named(bucket, fewer)[Name(bucket, key) := tag]
  {
    var a, b := Named(bucket, fewer)[Name(bucket, key) := tag], Named(bucket, fewer[key := tag]);
    assert a.Keys == b.Keys;
    forall n | n in b ensures a[n] == b[n] {
      assert n == Name(bucket, n.key);
    }
  }

  lemma {:induction false} SeenOneMore(tags: map<string, Option<Tag>>, todo: set<string>, key: string)
    requires key in todo && todo <= tags.Keys
    ensures Seen(tags, todo - {key}) == Seen(tags, todo)[key := tags[key]]
  {
    var a, b := Seen(tags, todo)[key := tags[key]], Seen(tags, todo - {key});
    assert a.Keys == b.Keys;
    assert forall k :: k in b ==> a[k] == b[k];
  }

  lemma {:induction false} SetLast<K, V>(m: map<K, V>, n: map<K, V>, k: K, v: V)
    ensures (m + n)[k := v] == m + n[k := v]
  {
  }

  lemma {:induction false} NameOneMore(m: map<Name, Option<Tag>>, bucket: string, tags: map<string, Option<Tag>>,
                                       todo: set<string>, key: string)
    requires key in todo && todo <= tags.Keys
    ensures (m + Named(bucket, Seen(tags, todo)))[Name(bucket, key) := tags[key]]
         == m + Named(bucket, Seen(tags, todo - {key}))
  {
    assert key !in Seen(tags, todo);
    hide Named, Seen;
    SeenOneMore(tags, todo, key);
    NamedOneMore(bucket, Seen(tags, todo), key, tags[key]);
    SetLast(m, Named(bucket, Seen(tags, todo)), Name(bucket, key), tags[key]);
  }
}
