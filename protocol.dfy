/**
 * The chat wire protocol: the JSON values a frame parses to, the message
 * record, the validity rules of `MessageSchema` and the encoding of an
 * outbound message.
 */
module Protocol {
  import opened Wrappers

  /** Connection identifiers are strings (UUIDs produced at accept time). */
  type Id = string

  /** A parsed JSON value. An object is a map, so a repeated key keeps its last value. */
  datatype Json =
    | JNull
    | JBool(b: bool)
    | JNumber(n: real)
    | JString(s: string)
    | JArray(items: seq<Json>)
    | JObject(fields: map<string, Json>)

  /** The closed enumeration of message types; `Chat` is the wire tag "message". */
  datatype Kind = Chat | Join | Leave | Ping | Pong

  /** A message as validated by the schema: optional fields are `None` when absent. */
  datatype Message = Message(
    kind: Kind,
    from: Option<string>,
    to: Option<string>,
    content: Option<string>,
    timestamp: int)

  /** The wire tag of a message type. */
  function KindTag(k: Kind): (tag: string)
    ensures KindOf(tag) == Some(k)
  {
    match k
    case Chat => "message"
    case Join => "join"
    case Leave => "leave"
    case Ping => "ping"
    case Pong => "pong"
  }

  /** The message type a wire tag names, if it names one of the five. */
  function KindOf(tag: string): (r: Option<Kind>)
    ensures r.Some? <==> tag in ["message", "join", "leave", "ping", "pong"]
  {
    if tag == "message" then Some(Chat)
    else if tag == "join" then Some(Join)
    else if tag == "leave" then Some(Leave)
    else if tag == "ping" then Some(Ping)
    else if tag == "pong" then Some(Pong)
    else None
  }

  predicate IsHexDigit(c: char) {
    '0' <= c <= '9' || 'a' <= c <= 'f' || 'A' <= c <= 'F'
  }

  predicate IsDashPosition(i: int) {
    i == 8 || i == 13 || i == 18 || i == 23
  }

  /** The textual UUID form of section 3 of RFC 4122: 8-4-4-4-12 hex digits, either case. */
  predicate IsUuid(s: string) {
    |s| == 36 &&
    forall i :: 0 <= i < 36 ==> if IsDashPosition(i) then s[i] == '-' else IsHexDigit(s[i])
  }

  /** A JSON number the schema accepts as a timestamp: an integer greater than zero. */
  predicate IsPositiveInteger(n: real) {
    n > 0.0 && n == n.Floor as real
  }

  /**
   * The rules of `MessageSchema` that the type of `Message` does not already
   * carry: `to`, when present, is a UUID, and the timestamp is positive.
   */
  predicate WellFormed(m: Message) {
    m.timestamp > 0 && (m.to.Some? ==> IsUuid(m.to.value))
  }

  /** The keys the schema knows; any other key of the input object is dropped. */
  const SchemaKeys: set<string> := {"type", "from", "to", "content", "timestamp"}

  /** The fields of an object that the schema looks at. */
  function SchemaPart(f: map<string, Json>): map<string, Json> {
    map k | k in f && k in SchemaKeys :: f[k]
  }

  /**
   * An optional string field: `Some(None)` when the key is absent,
   * `Some(Some(s))` for a string, `None` (a schema violation) otherwise.
   */
  function OptionalString(f: map<string, Json>, key: string): (r: Option<Option<string>>)
    ensures r == Some(None) <==> key !in f
    ensures forall s :: r == Some(Some(s)) <==> key in f && f[key] == JString(s)
  {
    if key !in f then Some(None)
    else match f[key]
      case JString(s) => Some(Some(s))
      case _ => None
  }

  /** The optional `to` field: a string that must also be a UUID. */
  function OptionalUuid(f: map<string, Json>, key: string): (r: Option<Option<string>>)
    ensures r.Some? && r.value.Some? ==> IsUuid(r.value.value)
  {
    match OptionalString(f, key)
    case Some(Some(s)) => if IsUuid(s) then Some(Some(s)) else None
    case other => other
  }

  /** The timestamp field: present, a number, an integer and positive. */
  function Timestamp(f: map<string, Json>): (r: Option<int>)
    ensures r.Some? ==> r.value > 0 && "timestamp" in f && f["timestamp"] == JNumber(r.value as real)
  {
    if "timestamp" in f && f["timestamp"].JNumber? && IsPositiveInteger(f["timestamp"].n)
    then Some(f["timestamp"].n.Floor)
    else None
  }

  /**
   * Validation of a parsed frame against `MessageSchema`: `None` is a schema
   * violation. Unknown keys are dropped.
   */
  function ParseMessage(j: Json): (r: Option<Message>)
    ensures r.Some? ==> WellFormed(r.value)
    ensures r.Some? ==> j.JObject?
  {
    if !j.JObject? then None
    else
      var f := j.fields;
      var kind := if "type" in f && f["type"].JString? then KindOf(f["type"].s) else None;
      var from := OptionalString(f, "from");
      var to := OptionalUuid(f, "to");
      var content := OptionalString(f, "content");
      var timestamp := Timestamp(f);
      if kind.Some? && from.Some? && to.Some? && content.Some? && timestamp.Some?
      then Some(Message(kind.value, from.value, to.value, content.value, timestamp.value))
      else None
  }

  function OptionalField(key: string, v: Option<string>): map<string, Json> {
    if v.Some? then map[key := JString(v.value)] else map[]
  }

  /** The JSON object a message is serialised to; absent fields are omitted. */
  function Encode(m: Message): (j: Json)
    ensures j.JObject? && j.fields.Keys <= SchemaKeys
  {
    JObject(map["type" := JString(KindTag(m.kind)), "timestamp" := JNumber(m.timestamp as real)]
      + OptionalField("from", m.from)
      + OptionalField("to", m.to)
      + OptionalField("content", m.content))
  }

  /** Every well-formed message survives serialisation and validation unchanged. */
  lemma ParseEncode(m: Message)
    requires WellFormed(m)
    ensures ParseMessage(Encode(m)) == Some(m)
  {
  }

  /**
   * Validation keeps exactly the schema's keys of the input: the accepted
   * message serialises to the input object restricted to those keys.
   */
  lemma ParseKeepsSchemaKeys(j: Json)
    requires ParseMessage(j).Some?
    ensures Encode(ParseMessage(j).value).fields == SchemaPart(j.fields)
  {
  }

  /** Unknown keys do not matter: validation sees only the schema's keys. */
  lemma ParseIgnoresUnknownKeys(j: Json)
    requires j.JObject?
    ensures ParseMessage(j) == ParseMessage(JObject(SchemaPart(j.fields)))
  {
  }

  /**
   * The schema accepts an input as `m` exactly when `m` is well formed and
   * the input is an object whose schema keys are those `m` serialises to,
   * whatever other keys it has.
   */
  lemma ParseAccepts(j: Json, m: Message)
    ensures ParseMessage(j) == Some(m)
        <==> j.JObject? && WellFormed(m) && SchemaPart(j.fields) == Encode(m).fields
  {
    if ParseMessage(j) == Some(m) {
      ParseKeepsSchemaKeys(j);
    }
    if j.JObject? && WellFormed(m) && SchemaPart(j.fields) == Encode(m).fields {
      ParseIgnoresUnknownKeys(j);
      ParseEncode(m);
      assert JObject(SchemaPart(j.fields)) == Encode(m);
    }
  }
}
