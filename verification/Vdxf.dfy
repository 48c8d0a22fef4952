/** On-chain values: JSON, contentmultimap keys and the DataDescriptor wrapper. */
module Vdxf {
  import opened Prelude

  /** Object fields keep their order, as JSON.stringify does. */
  datatype Json =
    | Null
    | Bool(b: bool)
    | Num(n: int)
    | Str(s: string)
    | Arr(elems: seq<Json>)
    | Obj(fields: seq<(string, Json)>)

  /** A contentmultimap key: the i-address of a VDXF name, written by its name. */
  datatype Key =
    | ReviewRecord
    | ReviewAttestation
    | JobRecord
    | MultimapRemove
    | Agent(field: AgentField)
    | SessionParams
    | PlatformConfig
    | WorkspaceCapability
    | LegacyAgent
    | LegacySession
    | LegacyPlatform
    | LegacyWorkspace
    | Other(iAddress: string)

  datatype AgentField =
    | DisplayName | Type | Description | Status | PayAddress | Services | Models | Markup
    | NetworkCapabilities | NetworkEndpoints | NetworkProtocols
    | ProfileTags | ProfileWebsite | ProfileAvatar | ProfileCategory | DisputePolicy

  /** Values to write, one array per key. */
  type Additions = map<Key, seq<Json>>

  /** A contentmultimap as the platform serves it: arrays, or single values under a key. */
  type ContentMap = map<Key, Json>

  /** The foreign text functions: JSON, hex, UTF-8 and the i-address of a key. */
  datatype TextCodec = TextCodec(
    parse: string -> Option<Json>,
    stringify: Json -> string,
    unhex: string -> string,
    utf8Length: string -> nat,
    address: Key -> string)

  /** A value of the runtime: reading back its printed text, which is never empty, gives it again. */
  predicate PrintsBack(tc: TextCodec, v: Json) {
    tc.stringify(v) != "" && tc.parse(tc.stringify(v)) == Some(v)
  }

  const DATA_DESCRIPTOR_KEY := "i4GC1YGEVD21afWudGoFJVdnfjJ5XWnCQv"
  const MAX_CONTENTMULTIMAP_VALUE_BYTES := 5000

  function AsArray(v: Json): seq<Json> {
    if v.Arr? then v.elems else [v]
  }

  function Get(fields: seq<(string, Json)>, name: string): Option<Json> {
    if fields == [] then None
    else if fields[0].0 == name then Some(fields[0].1)
    else Get(fields[1..], name)
  }

  function Field(v: Json, name: string): Option<Json> {
    if v.Obj? then Get(v.fields, name) else None
  }

  predicate Truthy(v: Json) {
    match v
    case Null => false
    case Bool(b) => b
    case Num(n) => n != 0
    case Str(s) => s != ""
    case _ => true
  }

  predicate IsHexText(s: string) {
    s != "" && |s| % 2 == 0 &&
    forall c :: c in s ==> '0' <= c <= '9' || 'a' <= c <= 'f' || 'A' <= c <= 'F'
  }

  /** The descriptor inside a wrapped value; None when the value is not wrapped. */
  function Descriptor(v: Json): Option<Json> {
    match Field(v, DATA_DESCRIPTOR_KEY)
    case Some(dd) => if Truthy(dd) then Some(dd) else None
    case None => None
  }

  function SubDD(name: string, message: string): Json {
    Obj([(DATA_DESCRIPTOR_KEY, Obj([
      ("version", Num(1)),
      ("flags", Num(96)),
      ("mimetype", Str("text/plain")),
      ("objectdata", Obj([("message", Str(message))])),
      ("label", Str(name))]))])
  }

  function MessageOf(objectdata: Json): Option<string> {
    match Field(objectdata, "message")
    case Some(Str(m)) => Some(m)
    case _ => None
  }

  /** Bytes one value occupies on-chain. */
  function ValueByteSize(tc: TextCodec, v: Json): nat {
    match v
    case Obj(_) =>
      (match Descriptor(v)
       case None => tc.utf8Length(tc.stringify(v))
       case Some(dd) =>
         match Field(dd, "objectdata")
         case Some(Str(hex)) => (|hex| + 1) / 2
         case Some(od) =>
           if MessageOf(od).Some? then tc.utf8Length(MessageOf(od).value) else tc.utf8Length(tc.stringify(v))
         case None => tc.utf8Length(tc.stringify(v)))
    case Str(s) => if IsHexText(s) then |s| / 2 else tc.utf8Length(s)
    case Null => tc.utf8Length(tc.stringify(Str("")))
    case _ => tc.utf8Length(tc.stringify(v))
  }

  function TextToJson(tc: TextCodec, s: string): Option<Json> {
    tc.parse(if IsHexText(s) then tc.unhex(s) else s)
  }

  function JobHashField(v: Json): Option<string> {
    match Field(v, "jobHash")
    case Some(Str(h)) => Some(h)
    case _ => None
  }

  /** extractJobHash: what the inbox batch compares reviews by. */
  function ExtractJobHash(tc: TextCodec, v: Json): Option<string> {
    match Descriptor(v)
    case None => UnwrappedJobHash(tc, v)
    case Some(dd) =>
      match Field(dd, "objectdata")
      case None => None
      case Some(od) =>
        UnwrappedJobHash(tc, if MessageOf(od).Some? then Str(MessageOf(od).value) else od)
  }

  function UnwrappedJobHash(tc: TextCodec, v: Json): Option<string> {
    if v.Str? then
      match TextToJson(tc, v.s)
      case Some(parsed) => JobHashField(parsed)
      case None => None
    else JobHashField(v)
  }

  /** unwrapDataDescriptor, of the history decoder: anything unexpected stays wrapped. */
  function UnwrapDescriptor(v: Json): Json {
    match Descriptor(v)
    case None => v
    case Some(dd) =>
      match Field(dd, "objectdata")
      case None => v
      case Some(od) =>
        if MessageOf(od).Some? then Str(MessageOf(od).value) else if od.Str? then od else v
  }

  /** decodeReviewValue: the object a stored review decodes to. */
  function DecodeReviewValue(tc: TextCodec, v: Json): Option<Json> {
    var u := UnwrapDescriptor(v);
    if u.Str? then
      match TextToJson(tc, u.s)
      case Some(parsed) => if parsed.Obj? then Some(parsed) else None
      case None => None
    else if u.Obj? then Some(u)
    else None
  }

  function ReviewJobHash(tc: TextCodec, v: Json): Option<string> {
    match DecodeReviewValue(tc, v)
    case Some(rec) => JobHashField(rec)
    case None => None
  }

  /** A wrapped value whose payload is neither a text message nor a string. */
  predicate OpaquePayload(v: Json) {
    Descriptor(v).Some? &&
    match Field(Descriptor(v).value, "objectdata")
    case None => true
    case Some(od) => MessageOf(od).None? && !od.Str?
  }

  /** The jobHash of what an opaque wrapper holds. */
  function PayloadJobHash(v: Json): Option<string>
    requires OpaquePayload(v)
  {
    match Field(Descriptor(v).value, "objectdata")
    case Some(od) => JobHashField(od)
    case None => None
  }

  /** The batch's duplicate check and the history reader read the same jobHash from a value exactly
      if its payload is not opaque, or names the same jobHash as the wrapper around it: there one
      looks inside the wrapper and the other at it. */
  lemma JobHashDecodersAgree(tc: TextCodec, v: Json)
    ensures ExtractJobHash(tc, v) == ReviewJobHash(tc, v) <==> (OpaquePayload(v) ==> PayloadJobHash(v) == JobHashField(v))
  {
    if OpaquePayload(v) {
      assert v.Obj? && UnwrapDescriptor(v) == v;
    }
  }
}
