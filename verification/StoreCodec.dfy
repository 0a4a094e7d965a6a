/** `console/sf_execution_cache.py:137-152`: the tagged JSON the execution cache is stored as. */
module StoreCodec {
  import opened Wrappers

  /** A describe response: JSON, plus the instants boto3 hands out. */
  datatype Json =
    | Null | Bool(bool) | Number(real) | Str(text: string) | Instant(at: int)
    | List(items: Items) | Dict(fields: Fields)
  datatype Items = Nil | Cons(head: Json, tail: Items)
  datatype Fields = NoFields | Field(name: string, value: Json, rest: Fields)

  /** `isoformat` and `fromisoformat`; the second fails on text that is no instant. */
  datatype Clock = Clock(write: int -> string, read: string -> Option<int>) {
    ghost predicate Faithful() { forall at :: read(write(at)) == Some(at) }
  }

  function Tagged(iso: string): Json { Dict(Field("$dt", Str(iso), NoFields)) }

  function Encode(v: Json, clock: Clock): Json {
    match v
    case Instant(at) => Tagged(clock.write(at))
    case Dict(fields) => Dict(EncodeFields(fields, clock))
    case List(items) => List(EncodeItems(items, clock))
    case _ => v
  }

  function EncodeItems(items: Items, clock: Clock): Items {
    match items
    case Nil => Nil
    case Cons(head, tail) => Cons(Encode(head, clock), EncodeItems(tail, clock))
  }

  function EncodeFields(fields: Fields, clock: Clock): Fields {
    match fields
    case NoFields => NoFields
    case Field(name, value, rest) => Field(name, Encode(value, clock), EncodeFields(rest, clock))
  }

  predicate IsTag(fields: Fields) {
    fields.Field? && fields.name == "$dt" && fields.value.Str? && fields.rest == NoFields
  }

  /** The hook the parser runs on every object, innermost first. */
  function Hook(fields: Fields, clock: Clock): Option<Json> {
    if !IsTag(fields) then Some(Dict(fields))
    else match clock.read(fields.value.text)
      case None => None
      case Some(at) => Some(Instant(at))
  }

  /** `json.load(..., object_hook=...)`; None is the `ValueError` of a tag that holds no instant. */
  function Decode(v: Json, clock: Clock): Option<Json> {
    match v
    case Dict(fields) => (
      match DecodeFields(fields, clock)
      case None => None
      case Some(decoded) => Hook(decoded, clock))
    case List(items) => (
      match DecodeItems(items, clock)
      case None => None
      case Some(decoded) => Some(List(decoded)))
    case _ => Some(v)
  }

  function DecodeItems(items: Items, clock: Clock): Option<Items> {
    match items
    case Nil => Some(Nil)
    case Cons(head, tail) =>
      match (Decode(head, clock), DecodeItems(tail, clock))
      case (Some(h), Some(t)) => Some(Cons(h, t))
      case _ => None
  }

  function DecodeFields(fields: Fields, clock: Clock): Option<Fields> {
    match fields
    case NoFields => Some(NoFields)
    case Field(name, value, rest) =>
      match (Decode(value, clock), DecodeFields(rest, clock))
      case (Some(v), Some(r)) => Some(Field(name, v, r))
      case _ => None
  }

  /** A dict of one entry, a text under the tag's own name. */
  predicate LooksLikeTag(fields: Fields) {
    match fields
    case Field(name, Str(_), NoFields) => name == "$dt"
    case _ => false
  }

  /** Nowhere in `v` is there a dict that is exactly `{"$dt": <string>}`. */
  predicate Untagged(v: Json) {
    match v
    case Dict(fields) => !LooksLikeTag(fields) && UntaggedFields(fields)
    case List(items) => UntaggedItems(items)
    case _ => true
  }

  predicate UntaggedItems(items: Items) { items.Cons? ==> Untagged(items.head) && UntaggedItems(items.tail) }

  predicate UntaggedFields(fields: Fields) { fields.Field? ==> Untagged(fields.value) && UntaggedFields(fields.rest) }

  /** A stored value comes back unchanged exactly when it holds no dict that looks like a tag. */
  lemma {:induction false} RoundTrip(v: Json, clock: Clock)
    requires clock.Faithful()
    ensures Decode(Encode(v, clock), clock) == Some(v) <==> Untagged(v)
    decreases v
  {
    match v
    case Instant(at) => TagDecodes(at, clock);
    case Dict(fields) => FieldsRoundTrip(fields, clock);
    case List(items) => ItemsRoundTrip(items, clock);
    case _ =>
  }

  lemma {:induction false} TagDecodes(at: int, clock: Clock)
    requires clock.Faithful()
    ensures Decode(Tagged(clock.write(at)), clock) == Some(Instant(at))
  {
    var fields := Field("$dt", Str(clock.write(at)), NoFields);
    assert DecodeFields(NoFields, clock) == Some(NoFields);
    assert DecodeFields(fields, clock) == Some(fields);
  }

  lemma {:induction false} ItemsRoundTrip(items: Items, clock: Clock)
    requires clock.Faithful()
    ensures DecodeItems(EncodeItems(items, clock), clock) == Some(items) <==> UntaggedItems(items)
    decreases items
  {
    if items.Cons? {
      RoundTrip(items.head, clock);
      ItemsRoundTrip(items.tail, clock);
    }
  }

  lemma {:induction false} FieldsRoundTrip(fields: Fields, clock: Clock)
    requires clock.Faithful()
    ensures DecodeFields(EncodeFields(fields, clock), clock) == Some(fields) <==> UntaggedFields(fields)
    decreases fields
  {
    if fields.Field? {
      RoundTrip(fields.value, clock);
      FieldsRoundTrip(fields.rest, clock);
    }
  }
}
