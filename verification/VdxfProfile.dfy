/** Publishing an agent's profile under flat keys and reading it back from the aggregated map. */
module VdxfProfile {
  import opened Prelude
  import opened Vdxf
  import opened ServiceCodec

  type Object = seq<(string, Json)>

  /** A profile to publish; a text or list that is not given is empty. */
  datatype Profile = Profile(
    name: string, kind: string, description: string, payAddress: string,
    capabilities: seq<string>, endpoints: seq<string>, protocols: seq<string>,
    tags: seq<string>, website: string, avatar: string, category: string,
    models: seq<string>, markup: Option<real>,
    session: Option<Object>, platformConfig: Option<Object>, workspaceCapability: Option<Object>)

  /** What stands under a key, apart from how it is printed. */
  datatype Value = J(j: Json) | N(x: real)

  function Text(s: string): Value { J(Str(s)) }

  function Texts(ss: seq<string>): Value { J(Arr(Map(s => Str(s), ss))) }

  function PutIf<V>(m: map<Key, V>, cond: bool, k: Key, v: V): map<Key, V> { if cond then m[k := v] else m }

  // ---- building ----

  function WriteCore(nc: NumberCodec, p: Profile, services: seq<Service>): map<Key, Value> {
    var core := map[Agent(DisplayName) := Text(p.name), Agent(Type) := Text(p.kind),
                    Agent(Description) := Text(p.description), Agent(Status) := Text("active")];
    var payable := PutIf(core, p.payAddress != "", Agent(PayAddress), Text(p.payAddress));
    PutIf(payable, services != [], Agent(Services), J(SerializeAll(nc, services)))
  }

  function WriteNetwork(m: map<Key, Value>, p: Profile): map<Key, Value> {
    var capable := PutIf(m, p.capabilities != [], Agent(NetworkCapabilities), Texts(p.capabilities));
    var reachable := PutIf(capable, p.endpoints != [], Agent(NetworkEndpoints), Texts(p.endpoints));
    PutIf(reachable, p.protocols != [], Agent(NetworkProtocols), Texts(p.protocols))
  }

  function WriteBlob(m: map<Key, Value>, p: Profile): map<Key, Value> {
    var tagged := PutIf(m, p.tags != [], Agent(ProfileTags), Texts(p.tags));
    var linked := PutIf(tagged, p.website != "", Agent(ProfileWebsite), Text(p.website));
    var pictured := PutIf(linked, p.avatar != "", Agent(ProfileAvatar), Text(p.avatar));
    PutIf(pictured, p.category != "", Agent(ProfileCategory), Text(p.category))
  }

  predicate MarkupWritten(p: Profile) { p.markup.Some? && 1.0 <= p.markup.value <= 50.0 }

  predicate HasFields(o: Option<Object>) { o.Some? && o.value != [] }

  function WriteModels(m: map<Key, Value>, p: Profile): map<Key, Value> {
    var equipped := PutIf(m, p.models != [], Agent(Models), Texts(p.models));
    PutIf(equipped, MarkupWritten(p), Agent(Markup), N(p.markup.GetOr(0.0)))
  }

  function WriteObjects(m: map<Key, Value>, p: Profile, dispute: Option<Object>): map<Key, Value> {
    var limited := PutIf(m, HasFields(p.session), SessionParams, J(Obj(p.session.GetOr([]))));
    var configured := PutIf(limited, HasFields(p.platformConfig), PlatformConfig, J(Obj(p.platformConfig.GetOr([]))));
    var able := PutIf(configured, p.workspaceCapability.Some?, WorkspaceCapability, J(Obj(p.workspaceCapability.GetOr([]))));
    PutIf(able, dispute.Some?, Agent(DisputePolicy), J(Obj(dispute.GetOr([]))))
  }

  /** The keys a publication writes, and what under each. */
  function Written(nc: NumberCodec, profile: Option<Profile>, services: seq<Service>, dispute: Option<Object>): map<Key, Value> {
    match profile
    case Some(p) => WriteObjects(WriteModels(WriteBlob(WriteNetwork(WriteCore(nc, p, services), p), p), p), p, dispute)
    case None => PutIf(map[], services != [], Agent(Services), J(SerializeAll(nc, services)))
  }

  function PrintValue(tc: TextCodec, nc: NumberCodec, v: Value): string {
    if v.N? then nc.text(v.x) else if v.j.Str? then v.j.s else tc.stringify(v.j)
  }

  function Entry(tc: TextCodec, nc: NumberCodec, k: Key, v: Value): seq<Json> {
    [SubDD(tc.address(k), PrintValue(tc, nc, v))]
  }

  function Printed(tc: TextCodec, nc: NumberCodec, m: map<Key, Value>): Additions {
    map k | k in m :: Entry(tc, nc, k, m[k])
  }

  lemma PrintedPut(tc: TextCodec, nc: NumberCodec, m: map<Key, Value>, cond: bool, k: Key, v: Value)
    ensures Printed(tc, nc, PutIf(m, cond, k, v)) == PutIf(Printed(tc, nc, m), cond, k, Entry(tc, nc, k, v))
  {
  }

  /** One conditional assignment of the builder. */
  method Put(tc: TextCodec, nc: NumberCodec, cmm: Additions, ghost m: map<Key, Value>, cond: bool, k: Key, v: Value)
    returns (next: Additions, ghost n: map<Key, Value>)
    requires cmm == Printed(tc, nc, m)
    ensures n == PutIf(m, cond, k, v) && next == Printed(tc, nc, n)
  {
    next, n := cmm, PutIf(m, cond, k, v);
    PrintedPut(tc, nc, m, cond, k, v);
    if cond { next := next[k := [SubDD(tc.address(k), PrintValue(tc, nc, v))]]; }
  }

  method BuildCore(tc: TextCodec, nc: NumberCodec, p: Profile, services: seq<Service>) returns (cmm: Additions)
    ensures cmm == Printed(tc, nc, WriteCore(nc, p, services))
  {
    ghost var m: map<Key, Value> := map[];
    cmm := map[];
    cmm, m := Put(tc, nc, cmm, m, true, Agent(DisplayName), Text(p.name));
    cmm, m := Put(tc, nc, cmm, m, true, Agent(Type), Text(p.kind));
    cmm, m := Put(tc, nc, cmm, m, true, Agent(Description), Text(p.description));
    cmm, m := Put(tc, nc, cmm, m, true, Agent(Status), Text("active"));
    cmm, m := Put(tc, nc, cmm, m, p.payAddress != "", Agent(PayAddress), Text(p.payAddress));
    cmm, m := Put(tc, nc, cmm, m, services != [], Agent(Services), J(SerializeAll(nc, services)));
  }

  method BuildNetwork(tc: TextCodec, nc: NumberCodec, cmm: Additions, ghost m: map<Key, Value>, p: Profile) returns (r: Additions)
    requires cmm == Printed(tc, nc, m)
    ensures r == Printed(tc, nc, WriteNetwork(m, p))
  {
    ghost var n := m;
    r := cmm;
    r, n := Put(tc, nc, r, n, p.capabilities != [], Agent(NetworkCapabilities), Texts(p.capabilities));
    r, n := Put(tc, nc, r, n, p.endpoints != [], Agent(NetworkEndpoints), Texts(p.endpoints));
    r, n := Put(tc, nc, r, n, p.protocols != [], Agent(NetworkProtocols), Texts(p.protocols));
  }

  method BuildBlob(tc: TextCodec, nc: NumberCodec, cmm: Additions, ghost m: map<Key, Value>, p: Profile) returns (r: Additions)
    requires cmm == Printed(tc, nc, m)
    ensures r == Printed(tc, nc, WriteBlob(m, p))
  {
    ghost var n := m;
    r := cmm;
    r, n := Put(tc, nc, r, n, p.tags != [], Agent(ProfileTags), Texts(p.tags));
    r, n := Put(tc, nc, r, n, p.website != "", Agent(ProfileWebsite), Text(p.website));
    r, n := Put(tc, nc, r, n, p.avatar != "", Agent(ProfileAvatar), Text(p.avatar));
    r, n := Put(tc, nc, r, n, p.category != "", Agent(ProfileCategory), Text(p.category));
  }

  method BuildModels(tc: TextCodec, nc: NumberCodec, cmm: Additions, ghost m: map<Key, Value>, p: Profile) returns (r: Additions)
    requires cmm == Printed(tc, nc, m)
    ensures r == Printed(tc, nc, WriteModels(m, p))
  {
    ghost var n := m;
    r := cmm;
    r, n := Put(tc, nc, r, n, p.models != [], Agent(Models), Texts(p.models));
    r, n := Put(tc, nc, r, n, MarkupWritten(p), Agent(Markup), N(p.markup.GetOr(0.0)));
  }

  method BuildObjects(tc: TextCodec, nc: NumberCodec, cmm: Additions, ghost m: map<Key, Value>, p: Profile, dispute: Option<Object>)
    returns (r: Additions)
    requires cmm == Printed(tc, nc, m)
    ensures r == Printed(tc, nc, WriteObjects(m, p, dispute))
  {
    ghost var n := m;
    r := cmm;
    r, n := Put(tc, nc, r, n, HasFields(p.session), SessionParams, J(Obj(p.session.GetOr([]))));
    r, n := Put(tc, nc, r, n, HasFields(p.platformConfig), PlatformConfig, J(Obj(p.platformConfig.GetOr([]))));
    r, n := Put(tc, nc, r, n, p.workspaceCapability.Some?, WorkspaceCapability, J(Obj(p.workspaceCapability.GetOr([]))));
    r, n := Put(tc, nc, r, n, dispute.Some?, Agent(DisputePolicy), J(Obj(dispute.GetOr([]))));
  }

  method BuildAgentContentMultimap(tc: TextCodec, nc: NumberCodec, profile: Option<Profile>, services: seq<Service>, dispute: Option<Object>)
    returns (cmm: Additions)
    ensures cmm == Printed(tc, nc, Written(nc, profile, services, dispute))
  {
    match profile
    case Some(p) =>
      ghost var m := WriteCore(nc, p, services);
      cmm := BuildCore(tc, nc, p, services);
      cmm := BuildNetwork(tc, nc, cmm, m, p);
      m := WriteNetwork(m, p);
      cmm := BuildBlob(tc, nc, cmm, m, p);
      m := WriteBlob(m, p);
      cmm := BuildModels(tc, nc, cmm, m, p);
      m := WriteModels(m, p);
      cmm := BuildObjects(tc, nc, cmm, m, p, dispute);
    case None =>
      ghost var m: map<Key, Value> := map[];
      cmm := map[];
      cmm, m := Put(tc, nc, cmm, m, services != [], Agent(Services), J(SerializeAll(nc, services)));
  }

  // ---- aggregation ----

  /** What the chain serves after an update: every value ever written under a key, oldest first. */
  function Merged(existing: ContentMap, additions: Additions): Additions {
    map k | k in existing.Keys + additions.Keys ::
      (if k in existing then AsArray(existing[k]) else []) + if k in additions then additions[k] else []
  }

  method MergeContentMultimap(existing: ContentMap, additions: Additions) returns (merged: Additions)
    ensures merged == Merged(existing, additions)
  {
    merged := map[];
    var left := existing.Keys;
    while left != {}
      invariant left <= existing.Keys && merged.Keys == existing.Keys - left
      invariant forall k :: k in merged ==> merged[k] == AsArray(existing[k])
    {
      var k :| k in left;
      merged, left := merged[k := AsArray(existing[k])], left - {k};
    }
    left := additions.Keys;
    while left != {}
      invariant left <= additions.Keys && merged.Keys == existing.Keys + (additions.Keys - left)
      invariant forall k :: k in merged ==>
        merged[k] == (if k in existing then AsArray(existing[k]) else []) + (if k in additions && k !in left then additions[k] else [])
    {
      var k :| k in left;
      if k in merged {
        merged := merged[k := merged[k] + additions[k]];
      } else {
        merged := merged[k := additions[k]];
      }
      left := left - {k};
    }
  }

  // ---- reading ----

  /** parseSubDD: the payload of a wrapped value; None also for null. */
  function SubValue(tc: TextCodec, e: Json): Option<Json> {
    match Descriptor(e)
    case None => None
    case Some(dd) =>
      match Field(dd, "objectdata")
      case None => None
      case Some(od) =>
        if od.Obj? && Field(od, "message").Some? then NotNull(Field(od, "message"))
        else if od.Str? then NotNull(Some(tc.parse(tc.unhex(od.s)).GetOr(od)))
        else NotNull(Some(od))
  }

  function NotNull(v: Option<Json>): Option<Json> { if v == Some(Null) then None else v }

  /** parseFlatEntry: the newest value under a key. */
  function Newest(tc: TextCodec, cmm: Additions, k: Key): Option<Json> {
    if k !in cmm || cmm[k] == [] then None else SubValue(tc, cmm[k][|cmm[k]| - 1])
  }

  function TryParse(tc: TextCodec, v: Json): Json { if v.Str? then tc.parse(v.s).GetOr(v) else v }

  predicate IsBase58(c: char) {
    || '1' <= c <= '9' || ('A' <= c <= 'Z' && c != 'I' && c != 'O') || ('a' <= c <= 'z' && c != 'l')
  }

  predicate IsVerusAddress(s: string) {
    26 <= |s| <= 41 && (s[0] == 'R' || s[0] == 'i') && forall i :: 1 <= i < |s| ==> IsBase58(s[i])
  }

  datatype Shape = PlainText | Address | AnyJson | Array | Percent | Container

  /** The keys a profile is read from, and what is expected under each. */
  function ShapeOf(k: Key): Option<Shape> {
    match k
    case Agent(DisplayName) => Some(PlainText)
    case Agent(Type) => Some(PlainText)
    case Agent(Description) => Some(PlainText)
    case Agent(PayAddress) => Some(Address)
    case Agent(NetworkCapabilities) => Some(AnyJson)
    case Agent(NetworkEndpoints) => Some(AnyJson)
    case Agent(NetworkProtocols) => Some(AnyJson)
    case Agent(ProfileTags) => Some(AnyJson)
    case Agent(ProfileWebsite) => Some(PlainText)
    case Agent(ProfileAvatar) => Some(PlainText)
    case Agent(ProfileCategory) => Some(PlainText)
    case Agent(Models) => Some(Array)
    case Agent(Markup) => Some(Percent)
    case Agent(DisputePolicy) => Some(AnyJson)
    case SessionParams => Some(Container)
    case PlatformConfig => Some(Container)
    case WorkspaceCapability => Some(Container)
    case _ => None
  }

  function ReadAs(tc: TextCodec, nc: NumberCodec, shape: Shape, v: Json): Option<Value> {
    match shape
    case PlainText => if Truthy(v) then Some(J(v)) else None
    case Address => if v.Str? && IsVerusAddress(v.s) then Some(J(v)) else None
    case AnyJson => if Truthy(v) then Some(J(TryParse(tc, v))) else None
    case Array => if Truthy(v) && TryParse(tc, v).Arr? then Some(J(TryParse(tc, v))) else None
    case Percent =>
      var n := SafeNumber(nc, Some(v), 1.0, 50.0);
      if n.Some? then Some(N(n.value)) else None
    case Container =>
      var c := TryParse(tc, v);
      if Truthy(v) && (c.Obj? || c.Arr?) then Some(J(c)) else None
  }

  /** The profile field read from one key. */
  function ReadField(tc: TextCodec, nc: NumberCodec, cmm: Additions, k: Key): Option<Value> {
    if ShapeOf(k).None? || Newest(tc, cmm, k).None? then None
    else ReadAs(tc, nc, ShapeOf(k).value, Newest(tc, cmm, k).value)
  }

  function ReadServicesOf(tc: TextCodec, nc: NumberCodec, cmm: Additions): Result<seq<Decoded>, string> {
    match Newest(tc, cmm, Agent(Services))
    case None => Ok([])
    case Some(raw) => if Truthy(raw) then ReadServices(tc, nc, raw) else Ok([])
  }

  const AGENT_FIELDS: set<AgentField> := {
    DisplayName, Type, Description, Status, PayAddress, AgentField.Services, Models, Markup, NetworkCapabilities,
    NetworkEndpoints, NetworkProtocols, ProfileTags, ProfileWebsite, ProfileAvatar, ProfileCategory, DisputePolicy
  }

  /** Legacy only if the legacy container is there and no flat agent key is. */
  predicate IsLegacyFormat(cmm: Additions) {
    LegacyAgent in cmm && forall f :: f in AGENT_FIELDS ==> Agent(f) !in cmm
  }

  /** The legacy decoder is not part of this model; a decode may end with the exception of a
      malformed services value. */
  datatype Reading = Legacy | Threw(error: string) | Flat(fields: map<Key, Value>, services: seq<Decoded>)

  /** The fields read from some of the keys. */
  function FieldsFrom(tc: TextCodec, nc: NumberCodec, cmm: Additions, keys: set<Key>): map<Key, Value> {
    map k | k in keys && ReadField(tc, nc, cmm, k).Some? :: ReadField(tc, nc, cmm, k).value
  }

  const PROFILE_KEYS: set<Key> := {
    Agent(DisplayName), Agent(Type), Agent(Description), Agent(PayAddress),
    Agent(NetworkCapabilities), Agent(NetworkEndpoints), Agent(NetworkProtocols),
    Agent(ProfileTags), Agent(ProfileWebsite), Agent(ProfileAvatar), Agent(ProfileCategory),
    Agent(Models), Agent(Markup), Agent(DisputePolicy), SessionParams, PlatformConfig, WorkspaceCapability
  }

  /** One conditional assignment of the decoder. */
  method ReadInto(tc: TextCodec, nc: NumberCodec, cmm: Additions, fields: map<Key, Value>, ghost done: set<Key>, k: Key)
    returns (r: map<Key, Value>, ghost next: set<Key>)
    requires fields == FieldsFrom(tc, nc, cmm, done)
    ensures next == done + {k} && r == FieldsFrom(tc, nc, cmm, next)
  {
    r, next := fields, done + {k};
    var v := ReadField(tc, nc, cmm, k);
    if v.Some? { r := r[k := v.value]; }
  }

  method ReadAgentFields(tc: TextCodec, nc: NumberCodec, cmm: Additions) returns (r: map<Key, Value>, ghost done: set<Key>)
    ensures r == FieldsFrom(tc, nc, cmm, done)
    ensures done == {Agent(DisplayName), Agent(Type), Agent(Description), Agent(PayAddress),
                     Agent(NetworkCapabilities), Agent(NetworkEndpoints), Agent(NetworkProtocols)}
  {
    r, done := map[], {};
    r, done := ReadInto(tc, nc, cmm, r, done, Agent(DisplayName));
    r, done := ReadInto(tc, nc, cmm, r, done, Agent(Type));
    r, done := ReadInto(tc, nc, cmm, r, done, Agent(Description));
    r, done := ReadInto(tc, nc, cmm, r, done, Agent(PayAddress));
    r, done := ReadInto(tc, nc, cmm, r, done, Agent(NetworkCapabilities));
    r, done := ReadInto(tc, nc, cmm, r, done, Agent(NetworkEndpoints));
    r, done := ReadInto(tc, nc, cmm, r, done, Agent(NetworkProtocols));
  }

  method ReadOtherFields(tc: TextCodec, nc: NumberCodec, cmm: Additions, fields: map<Key, Value>, ghost done: set<Key>)
    returns (r: map<Key, Value>, ghost next: set<Key>)
    requires fields == FieldsFrom(tc, nc, cmm, done)
    ensures r == FieldsFrom(tc, nc, cmm, next)
    ensures next == done + {Agent(ProfileTags), Agent(ProfileWebsite), Agent(ProfileAvatar), Agent(ProfileCategory),
                            Agent(Models), Agent(Markup), Agent(DisputePolicy), SessionParams, PlatformConfig, WorkspaceCapability}
  {
    r, next := ReadInto(tc, nc, cmm, fields, done, Agent(ProfileTags));
    r, next := ReadInto(tc, nc, cmm, r, next, Agent(ProfileWebsite));
    r, next := ReadInto(tc, nc, cmm, r, next, Agent(ProfileAvatar));
    r, next := ReadInto(tc, nc, cmm, r, next, Agent(ProfileCategory));
    r, next := ReadInto(tc, nc, cmm, r, next, Agent(Models));
    r, next := ReadInto(tc, nc, cmm, r, next, Agent(Markup));
    r, next := ReadInto(tc, nc, cmm, r, next, Agent(DisputePolicy));
    r, next := ReadInto(tc, nc, cmm, r, next, SessionParams);
    r, next := ReadInto(tc, nc, cmm, r, next, PlatformConfig);
    r, next := ReadInto(tc, nc, cmm, r, next, WorkspaceCapability);
  }

  method DecodeContentMultimap(tc: TextCodec, nc: NumberCodec, cmm: Additions) returns (r: Reading)
    ensures r == Decode(tc, nc, cmm)
  {
    if IsLegacyFormat(cmm) { return Legacy; }
    var fields, done := ReadAgentFields(tc, nc, cmm);
    var services := ReadServicesOf(tc, nc, cmm);
    if services.Err? { return Threw(services.error); }
    fields, done := ReadOtherFields(tc, nc, cmm, fields, done);
    assert done == PROFILE_KEYS;
    return Flat(fields, services.value);
  }

  function Decode(tc: TextCodec, nc: NumberCodec, cmm: Additions): Reading {
    if IsLegacyFormat(cmm) then Legacy
    else
      match ReadServicesOf(tc, nc, cmm)
      case Err(e) => Threw(e)
      case Ok(services) => Flat(FieldsFrom(tc, nc, cmm, PROFILE_KEYS), services)
  }

  // ---- round trip ----

  lemma SubDDReads(tc: TextCodec, name: string, message: string)
    ensures SubValue(tc, SubDD(name, message)) == Some(Str(message))
  {
    var e := SubDD(name, message);
    var dd := e.fields[0].1;
    assert Descriptor(e) == Some(dd);
    assert dd.fields[3].0 == "objectdata";
    var f := dd.fields;
    assert |"version"| != |"objectdata"| && |"flags"| != |"objectdata"| && |"mimetype"| != |"objectdata"|;
    assert Get(f, "objectdata") == Get(f[1..], "objectdata");
    assert f[1..][1..] == f[2..] && f[2..][1..] == f[3..];
    assert Get(f, "objectdata") == Get(f[2..], "objectdata");
    assert Get(f, "objectdata") == Get(f[3..], "objectdata");
    assert Get(f, "objectdata") == Some(f[3].1);
  }

  /** Under a key that was written the newest value is the written one; under any other, the older
      map's newest. */
  lemma NewestAfterMerge(tc: TextCodec, nc: NumberCodec, older: ContentMap, w: map<Key, Value>, k: Key)
    ensures var merged := Merged(older, Printed(tc, nc, w));
      && (k in w ==> Newest(tc, merged, k) == Some(Str(PrintValue(tc, nc, w[k]))))
      && (k !in w ==> Newest(tc, merged, k) == Newest(tc, Merged(older, map[]), k))
  {
    var merged := Merged(older, Printed(tc, nc, w));
    if k in w {
      SubDDReads(tc, tc.address(k), PrintValue(tc, nc, w[k]));
      assert Entry(tc, nc, k, w[k]) == [SubDD(tc.address(k), PrintValue(tc, nc, w[k]))];
      assert merged[k][|merged[k]| - 1] == SubDD(tc.address(k), PrintValue(tc, nc, w[k]));
    } else {
      assert k in merged ==> merged[k] == Merged(older, map[])[k];
    }
  }

  /** A value of the runtime: a text, a number, or JSON that survives printing. */
  predicate IsValue(tc: TextCodec, nc: NumberCodec, v: Value) {
    if v.N? then nc.isNumber(v.x) else v.j.Str? || PrintsBack(tc, v.j)
  }

  predicate AllValues(tc: TextCodec, nc: NumberCodec, w: map<Key, Value>) { forall k :: k in w ==> IsValue(tc, nc, w[k]) }

  /** A value that survives being printed under a key of that shape. */
  predicate Fits(shape: Shape, v: Value) {
    match shape
    case PlainText => v.J? && v.j.Str? && v.j.s != ""
    case Address => v.J? && v.j.Str? && IsVerusAddress(v.j.s)
    case AnyJson => v.J? && (v.j.Arr? || v.j.Obj?)
    case Array => v.J? && v.j.Arr?
    case Percent => v.N? && 1.0 <= v.x <= 50.0
    case Container => v.J? && v.j.Obj?
  }

  lemma FittingReads(tc: TextCodec, nc: NumberCodec, shape: Shape, v: Value)
    requires IsValue(tc, nc, v) && NumbersRoundTrip(nc) && Fits(shape, v)
    ensures ReadAs(tc, nc, shape, Str(PrintValue(tc, nc, v))) == Some(v)
  {
    if v.N? { assert nc.number(Str(nc.text(v.x))) == Some(v.x); }
  }

  predicate AllFit(m: map<Key, Value>, but: set<Key>) {
    forall k :: k in m && k !in but && ShapeOf(k).Some? ==> Fits(ShapeOf(k).value, m[k])
  }

  /** The keys whose values may be unfit. */
  const FREE_TEXT: set<Key> := {Agent(DisplayName), Agent(Type), Agent(Description), Agent(PayAddress)}

  predicate SameCore(m: map<Key, Value>, n: map<Key, Value>) {
    forall k :: k in FREE_TEXT + {Agent(Services)} ==> (k in m <==> k in n) && (k in m ==> m[k] == n[k])
  }

  lemma PutFits(m: map<Key, Value>, cond: bool, k: Key, v: Value)
    requires AllFit(m, FREE_TEXT) && k !in FREE_TEXT + {Agent(Services)} && (cond && ShapeOf(k).Some? ==> Fits(ShapeOf(k).value, v))
    ensures AllFit(PutIf(m, cond, k, v), FREE_TEXT) && SameCore(m, PutIf(m, cond, k, v))
    ensures m.Keys <= PutIf(m, cond, k, v).Keys
  {
  }

  lemma NetworkFits(m: map<Key, Value>, p: Profile)
    requires AllFit(m, FREE_TEXT)
    ensures AllFit(WriteNetwork(m, p), FREE_TEXT) && SameCore(m, WriteNetwork(m, p))
  {
    var a := PutIf(m, p.capabilities != [], Agent(NetworkCapabilities), Texts(p.capabilities));
    PutFits(m, p.capabilities != [], Agent(NetworkCapabilities), Texts(p.capabilities));
    var b := PutIf(a, p.endpoints != [], Agent(NetworkEndpoints), Texts(p.endpoints));
    PutFits(a, p.endpoints != [], Agent(NetworkEndpoints), Texts(p.endpoints));
    PutFits(b, p.protocols != [], Agent(NetworkProtocols), Texts(p.protocols));
  }

  lemma BlobFits(m: map<Key, Value>, p: Profile)
    requires AllFit(m, FREE_TEXT)
    ensures AllFit(WriteBlob(m, p), FREE_TEXT) && SameCore(m, WriteBlob(m, p))
  {
    var a := PutIf(m, p.tags != [], Agent(ProfileTags), Texts(p.tags));
    PutFits(m, p.tags != [], Agent(ProfileTags), Texts(p.tags));
    var b := PutIf(a, p.website != "", Agent(ProfileWebsite), Text(p.website));
    PutTextFits(a, Agent(ProfileWebsite), p.website);
    var c := PutIf(b, p.avatar != "", Agent(ProfileAvatar), Text(p.avatar));
    PutTextFits(b, Agent(ProfileAvatar), p.avatar);
    PutTextFits(c, Agent(ProfileCategory), p.category);
    SameCoreChain(m, a, b);
    SameCoreChain(m, b, c);
    SameCoreChain(m, c, WriteBlob(m, p));
  }

  lemma PutTextFits(m: map<Key, Value>, k: Key, s: string)
    requires AllFit(m, FREE_TEXT) && ShapeOf(k) == Some(PlainText) && k !in FREE_TEXT
    ensures AllFit(PutIf(m, s != "", k, Text(s)), FREE_TEXT) && SameCore(m, PutIf(m, s != "", k, Text(s)))
  {
    PutFits(m, s != "", k, Text(s));
  }

  lemma ModelsFit(m: map<Key, Value>, p: Profile)
    requires AllFit(m, FREE_TEXT)
    ensures AllFit(WriteModels(m, p), FREE_TEXT) && SameCore(m, WriteModels(m, p))
  {
    var a := PutIf(m, p.models != [], Agent(Models), Texts(p.models));
    PutFits(m, p.models != [], Agent(Models), Texts(p.models));
    PutFits(a, MarkupWritten(p), Agent(Markup), N(p.markup.GetOr(0.0)));
  }

  lemma ObjectsFit(m: map<Key, Value>, p: Profile, dispute: Option<Object>)
    requires AllFit(m, FREE_TEXT)
    ensures AllFit(WriteObjects(m, p, dispute), FREE_TEXT) && SameCore(m, WriteObjects(m, p, dispute))
  {
    var a := PutIf(m, HasFields(p.session), SessionParams, J(Obj(p.session.GetOr([]))));
    PutFits(m, HasFields(p.session), SessionParams, J(Obj(p.session.GetOr([]))));
    var b := PutIf(a, HasFields(p.platformConfig), PlatformConfig, J(Obj(p.platformConfig.GetOr([]))));
    PutFits(a, HasFields(p.platformConfig), PlatformConfig, J(Obj(p.platformConfig.GetOr([]))));
    var c := PutIf(b, p.workspaceCapability.Some?, WorkspaceCapability, J(Obj(p.workspaceCapability.GetOr([]))));
    PutFits(b, p.workspaceCapability.Some?, WorkspaceCapability, J(Obj(p.workspaceCapability.GetOr([]))));
    PutFits(c, dispute.Some?, Agent(DisputePolicy), J(Obj(dispute.GetOr([]))));
  }

  /** A profile with a name, a type and a description, and a payout address that is one if given. */
  predicate WellFormed(profile: Option<Profile>) {
    profile.Some? ==>
      var p := profile.value;
      p.name != "" && p.kind != "" && p.description != "" && (p.payAddress == "" || IsVerusAddress(p.payAddress))
  }

  lemma CoreFits(nc: NumberCodec, p: Profile, services: seq<Service>)
    ensures var m := WriteCore(nc, p, services);
      AllFit(m, FREE_TEXT) && (WellFormed(Some(p)) ==> AllFit(m, {}))
  {
  }

  /** Everything written after the core fits, and leaves the core's free texts alone. */
  lemma WrittenKeepsCore(nc: NumberCodec, p: Profile, services: seq<Service>, dispute: Option<Object>)
    ensures AllFit(Written(nc, Some(p), services, dispute), FREE_TEXT)
    ensures SameCore(WriteCore(nc, p, services), Written(nc, Some(p), services, dispute))
  {
    var core := WriteCore(nc, p, services);
    CoreFits(nc, p, services);
    var network := WriteNetwork(core, p);
    NetworkFits(core, p);
    var blob := WriteBlob(network, p);
    BlobFits(network, p);
    var models := WriteModels(blob, p);
    ModelsFit(blob, p);
    ObjectsFit(models, p, dispute);
    SameCoreChain(core, network, blob);
    SameCoreChain(core, blob, models);
    SameCoreChain(core, models, WriteObjects(models, p, dispute));
  }

  lemma SameCoreChain(a: map<Key, Value>, b: map<Key, Value>, c: map<Key, Value>)
    requires SameCore(a, b) && SameCore(b, c)
    ensures SameCore(a, c)
  {
  }

  lemma WrittenFits(nc: NumberCodec, profile: Option<Profile>, services: seq<Service>, dispute: Option<Object>)
    requires WellFormed(profile)
    ensures AllFit(Written(nc, profile, services, dispute), {})
  {
    if profile.Some? {
      CoreFits(nc, profile.value, services);
      WrittenKeepsCore(nc, profile.value, services, dispute);
      FreeTextCarries(WriteCore(nc, profile.value, services), Written(nc, profile, services, dispute));
    }
  }

  lemma FreeTextCarries(m: map<Key, Value>, n: map<Key, Value>)
    requires AllFit(m, {}) && AllFit(n, FREE_TEXT) && SameCore(m, n)
    ensures AllFit(n, {})
  {
  }

  /** Whether every profile field a publication writes is under its own key as written. */
  ghost predicate FieldsComeBack(tc: TextCodec, nc: NumberCodec, older: ContentMap, w: map<Key, Value>) {
    forall k :: k in w && ShapeOf(k).Some? ==> ReadField(tc, nc, Merged(older, Printed(tc, nc, w)), k) == Some(w[k])
  }

  lemma FittingFieldComesBack(tc: TextCodec, nc: NumberCodec, older: ContentMap, w: map<Key, Value>, k: Key)
    requires NumbersRoundTrip(nc) && k in w && IsValue(tc, nc, w[k]) && ShapeOf(k).Some? && Fits(ShapeOf(k).value, w[k])
    ensures ReadField(tc, nc, Merged(older, Printed(tc, nc, w)), k) == Some(w[k])
  {
    NewestAfterMerge(tc, nc, older, w, k);
    FittingReads(tc, nc, ShapeOf(k).value, w[k]);
  }

  lemma UnfitTextIsLost(tc: TextCodec, nc: NumberCodec, older: ContentMap, w: map<Key, Value>, k: Key, s: string)
    requires k in FREE_TEXT && k in w && w[k] == Text(s)
    requires if k == Agent(PayAddress) then !IsVerusAddress(s) else s == ""
    ensures ReadField(tc, nc, Merged(older, Printed(tc, nc, w)), k) == None
  {
    NewestAfterMerge(tc, nc, older, w, k);
  }

  /** Key by key, the profile fields come back as they were written, whatever the older map holds,
      exactly if the profile is well-formed. */
  lemma FieldsRoundTrip(tc: TextCodec, nc: NumberCodec, older: ContentMap, profile: Option<Profile>,
                         services: seq<Service>, dispute: Option<Object>)
    requires NumbersRoundTrip(nc) && AllValues(tc, nc, Written(nc, profile, services, dispute))
    ensures FieldsComeBack(tc, nc, older, Written(nc, profile, services, dispute)) <==> WellFormed(profile)
  {
    var w := Written(nc, profile, services, dispute);
    if WellFormed(profile) {
      WrittenFits(nc, profile, services, dispute);
      forall k | k in w && ShapeOf(k).Some?
        ensures ReadField(tc, nc, Merged(older, Printed(tc, nc, w)), k) == Some(w[k])
      {
        FittingFieldComesBack(tc, nc, older, w, k);
      }
    } else {
      WrittenKeepsCore(nc, profile.value, services, dispute);
      IllFormedFieldIsLost(tc, nc, older, profile.value, services, w);
    }
  }

  lemma CoreHolds(nc: NumberCodec, p: Profile, services: seq<Service>, w: map<Key, Value>)
    requires SameCore(WriteCore(nc, p, services), w)
    ensures Agent(DisplayName) in w && w[Agent(DisplayName)] == Text(p.name)
    ensures Agent(Type) in w && w[Agent(Type)] == Text(p.kind)
    ensures Agent(Description) in w && w[Agent(Description)] == Text(p.description)
    ensures p.payAddress != "" ==> Agent(PayAddress) in w && w[Agent(PayAddress)] == Text(p.payAddress)
    ensures services == [] ==> Agent(Services) !in w
    ensures services != [] ==> Agent(Services) in w && w[Agent(Services)] == J(SerializeAll(nc, services))
  {
    assert Agent(DisplayName) in FREE_TEXT && Agent(Type) in FREE_TEXT;
    assert Agent(Description) in FREE_TEXT && Agent(PayAddress) in FREE_TEXT;
    assert Agent(Services) in FREE_TEXT + {Agent(Services)};
  }

  /** An unfit free text among the written ones. */
  lemma UnfitText(p: Profile) returns (k: Key, s: string)
    requires !WellFormed(Some(p))
    ensures (k == Agent(DisplayName) && s == p.name == "") || (k == Agent(Type) && s == p.kind == "")
      || (k == Agent(Description) && s == p.description == "")
      || (k == Agent(PayAddress) && s == p.payAddress != "" && !IsVerusAddress(s))
  {
    if p.name == "" {
      k, s := Agent(DisplayName), p.name;
    } else if p.kind == "" {
      k, s := Agent(Type), p.kind;
    } else if p.description == "" {
      k, s := Agent(Description), p.description;
    } else {
      k, s := Agent(PayAddress), p.payAddress;
    }
  }

  lemma IllFormedFieldIsLost(tc: TextCodec, nc: NumberCodec, older: ContentMap, p: Profile, services: seq<Service>,
                             w: map<Key, Value>)
    requires !WellFormed(Some(p)) && SameCore(WriteCore(nc, p, services), w)
    ensures !FieldsComeBack(tc, nc, older, w)
  {
    CoreHolds(nc, p, services, w);
    var k, s := UnfitText(p);
    LostFieldBreaks(tc, nc, older, w, k, s);
  }

  lemma LostFieldBreaks(tc: TextCodec, nc: NumberCodec, older: ContentMap, w: map<Key, Value>, k: Key, s: string)
    requires k in FREE_TEXT && k in w && w[k] == Text(s)
    requires if k == Agent(PayAddress) then !IsVerusAddress(s) else s == ""
    ensures !FieldsComeBack(tc, nc, older, w)
  {
    UnfitTextIsLost(tc, nc, older, w, k, s);
    assert ShapeOf(k).Some?;
  }

  /** Under a key that is not written, what is read is what was read before. */
  lemma UnwrittenFieldsStay(tc: TextCodec, nc: NumberCodec, older: ContentMap, w: map<Key, Value>, k: Key)
    requires k !in w
    ensures ReadField(tc, nc, Merged(older, Printed(tc, nc, w)), k) == ReadField(tc, nc, Merged(older, map[]), k)
  {
    NewestAfterMerge(tc, nc, older, w, k);
  }

  lemma ServicesWritten(nc: NumberCodec, profile: Option<Profile>, services: seq<Service>, dispute: Option<Object>)
    ensures var w := Written(nc, profile, services, dispute);
      && (services != [] ==> Agent(Services) in w && w[Agent(Services)] == J(SerializeAll(nc, services)))
      && (services == [] ==> Agent(Services) !in w)
      && (profile.Some? ==> Agent(DisplayName) in w)
  {
    if profile.Some? {
      WrittenKeepsCore(nc, profile.value, services, dispute);
      CoreHolds(nc, profile.value, services, Written(nc, profile, services, dispute));
    }
  }

  predicate ServicesFaithful(services: seq<Service>) {
    |services| <= 100 && forall i :: 0 <= i < |services| ==> Faithful(services[i])
  }

  function Publication(tc: TextCodec, nc: NumberCodec, older: ContentMap, profile: Option<Profile>,
                       services: seq<Service>, dispute: Option<Object>): Additions {
    Merged(older, Printed(tc, nc, Written(nc, profile, services, dispute)))
  }

  /** Something is published, all of it values of the runtime. */
  predicate Publishable(tc: TextCodec, nc: NumberCodec, profile: Option<Profile>, services: seq<Service>, dispute: Option<Object>) {
    && (profile.Some? || services != [])
    && AllValues(tc, nc, Written(nc, profile, services, dispute)) && AllHaveNumbers(nc, services)
  }

  lemma PrintedServicesAreNewest(tc: TextCodec, nc: NumberCodec, older: ContentMap, profile: Option<Profile>,
                                 services: seq<Service>, dispute: Option<Object>)
    requires Publishable(tc, nc, profile, services, dispute) && services != []
    ensures var all := SerializeAll(nc, services);
      PrintsBack(tc, all)
      && Newest(tc, Publication(tc, nc, older, profile, services, dispute), Agent(Services)) == Some(Str(tc.stringify(all)))
  {
    var w := Written(nc, profile, services, dispute);
    ServicesWritten(nc, profile, services, dispute);
    assert IsValue(tc, nc, w[Agent(Services)]);
    NewestAfterMerge(tc, nc, older, w, Agent(Services));
  }

  lemma NewServicesExactly(tc: TextCodec, nc: NumberCodec, older: ContentMap, profile: Option<Profile>,
                           services: seq<Service>, dispute: Option<Object>)
    requires NumbersRoundTrip(nc) && Publishable(tc, nc, profile, services, dispute) && services != []
    ensures ReadServicesOf(tc, nc, Publication(tc, nc, older, profile, services, dispute)) == Ok(Map(Given, services)) <==>
      ServicesFaithful(services)
  {
    PrintedServicesAreNewest(tc, nc, older, profile, services, dispute);
    ServicesRoundTrip(tc, nc, services);
  }

  lemma PublishedIsFlat(tc: TextCodec, nc: NumberCodec, older: ContentMap, profile: Option<Profile>,
                        services: seq<Service>, dispute: Option<Object>)
    requires profile.Some? || services != []
    ensures !IsLegacyFormat(Publication(tc, nc, older, profile, services, dispute))
  {
    ServicesWritten(nc, profile, services, dispute);
    if profile.Some? { assert DisplayName in AGENT_FIELDS; } else { assert AgentField.Services in AGENT_FIELDS; }
  }

  /** After a publication the map reads flat, whatever legacy containers it still holds; with
      services it reads exactly those if they are faithful, without it reads the older ones. */
  lemma PublicationReads(tc: TextCodec, nc: NumberCodec, older: ContentMap, profile: Option<Profile>,
                         services: seq<Service>, dispute: Option<Object>)
    requires NumbersRoundTrip(nc) && Publishable(tc, nc, profile, services, dispute)
    ensures var cmm := Publication(tc, nc, older, profile, services, dispute);
      && !IsLegacyFormat(cmm)
      && (services == [] ==> ReadServicesOf(tc, nc, cmm) == ReadServicesOf(tc, nc, Merged(older, map[])))
      && (services != [] ==> (ReadServicesOf(tc, nc, cmm) == Ok(Map(Given, services)) <==> ServicesFaithful(services)))
  {
    PublishedIsFlat(tc, nc, older, profile, services, dispute);
    if services != [] {
      NewServicesExactly(tc, nc, older, profile, services, dispute);
    } else {
      ServicesWritten(nc, profile, services, dispute);
      NewestAfterMerge(tc, nc, older, Written(nc, profile, services, dispute), Agent(Services));
    }
  }

  // ---- key by key ----

  /** What a publication says about one key: the field of the profile that belongs there. */
  function FieldFor(nc: NumberCodec, p: Profile, services: seq<Service>, dispute: Option<Object>, k: Key): Option<Value> {
    match k
    case Agent(DisplayName) => Some(Text(p.name))
    case Agent(Type) => Some(Text(p.kind))
    case Agent(Description) => Some(Text(p.description))
    case Agent(Status) => Some(Text("active"))
    case Agent(PayAddress) => IfText(p.payAddress)
    case Agent(Services) => if services == [] then None else Some(J(SerializeAll(nc, services)))
    case Agent(NetworkCapabilities) => IfTexts(p.capabilities)
    case Agent(NetworkEndpoints) => IfTexts(p.endpoints)
    case Agent(NetworkProtocols) => IfTexts(p.protocols)
    case Agent(ProfileTags) => IfTexts(p.tags)
    case Agent(ProfileWebsite) => IfText(p.website)
    case Agent(ProfileAvatar) => IfText(p.avatar)
    case Agent(ProfileCategory) => IfText(p.category)
    case Agent(Models) => IfTexts(p.models)
    case Agent(Markup) => if MarkupWritten(p) then Some(N(p.markup.value)) else None
    case Agent(DisputePolicy) => IfObject(dispute)
    case SessionParams => if HasFields(p.session) then IfObject(p.session) else None
    case PlatformConfig => if HasFields(p.platformConfig) then IfObject(p.platformConfig) else None
    case WorkspaceCapability => IfObject(p.workspaceCapability)
    case _ => None
  }

  function IfText(s: string): Option<Value> { if s == "" then None else Some(Text(s)) }
  function IfTexts(ss: seq<string>): Option<Value> { if ss == [] then None else Some(Texts(ss)) }
  function IfObject(o: Option<Object>): Option<Value> { if o.None? then None else Some(J(Obj(o.value))) }

  function Lookup(m: map<Key, Value>, k: Key): Option<Value> { if k in m then Some(m[k]) else None }

  lemma PutLookup(m: map<Key, Value>, cond: bool, key: Key, v: Value, k: Key)
    ensures Lookup(PutIf(m, cond, key, v), k) == if cond && k == key then Some(v) else Lookup(m, k)
  {
  }

  predicate CoreKey(k: Key) {
    k == Agent(DisplayName) || k == Agent(Type) || k == Agent(Description) || k == Agent(Status)
    || k == Agent(PayAddress) || k == Agent(Services)
  }

  predicate NetworkKey(k: Key) {
    k == Agent(NetworkCapabilities) || k == Agent(NetworkEndpoints) || k == Agent(NetworkProtocols)
  }

  predicate BlobKey(k: Key) {
    k == Agent(ProfileTags) || k == Agent(ProfileWebsite) || k == Agent(ProfileAvatar) || k == Agent(ProfileCategory)
  }

  lemma CoreLookup(nc: NumberCodec, p: Profile, services: seq<Service>, dispute: Option<Object>, k: Key)
    ensures Lookup(WriteCore(nc, p, services), k) == if CoreKey(k) then FieldFor(nc, p, services, dispute, k) else None
  {
  }

  lemma NetworkLookup(nc: NumberCodec, m: map<Key, Value>, p: Profile, services: seq<Service>, dispute: Option<Object>, k: Key)
    requires NetworkKey(k) ==> k !in m
    ensures Lookup(WriteNetwork(m, p), k) == if NetworkKey(k) then FieldFor(nc, p, services, dispute, k) else Lookup(m, k)
  {
    var a := PutIf(m, p.capabilities != [], Agent(NetworkCapabilities), Texts(p.capabilities));
    PutLookup(m, p.capabilities != [], Agent(NetworkCapabilities), Texts(p.capabilities), k);
    var b := PutIf(a, p.endpoints != [], Agent(NetworkEndpoints), Texts(p.endpoints));
    PutLookup(a, p.endpoints != [], Agent(NetworkEndpoints), Texts(p.endpoints), k);
    PutLookup(b, p.protocols != [], Agent(NetworkProtocols), Texts(p.protocols), k);
  }

  lemma BlobLookup(nc: NumberCodec, m: map<Key, Value>, p: Profile, services: seq<Service>, dispute: Option<Object>, k: Key)
    requires BlobKey(k) ==> k !in m
    ensures Lookup(WriteBlob(m, p), k) == if BlobKey(k) then FieldFor(nc, p, services, dispute, k) else Lookup(m, k)
  {
    var a := PutIf(m, p.tags != [], Agent(ProfileTags), Texts(p.tags));
    PutLookup(m, p.tags != [], Agent(ProfileTags), Texts(p.tags), k);
    var b := PutIf(a, p.website != "", Agent(ProfileWebsite), Text(p.website));
    PutLookup(a, p.website != "", Agent(ProfileWebsite), Text(p.website), k);
    var c := PutIf(b, p.avatar != "", Agent(ProfileAvatar), Text(p.avatar));
    PutLookup(b, p.avatar != "", Agent(ProfileAvatar), Text(p.avatar), k);
    PutLookup(c, p.category != "", Agent(ProfileCategory), Text(p.category), k);
  }

  lemma ModelsLookup(nc: NumberCodec, m: map<Key, Value>, p: Profile, services: seq<Service>, dispute: Option<Object>, k: Key)
    requires k == Agent(Models) || k == Agent(Markup) ==> k !in m
    ensures Lookup(WriteModels(m, p), k) ==
      if k == Agent(Models) || k == Agent(Markup) then FieldFor(nc, p, services, dispute, k) else Lookup(m, k)
  {
    var a := PutIf(m, p.models != [], Agent(Models), Texts(p.models));
    PutLookup(m, p.models != [], Agent(Models), Texts(p.models), k);
    PutLookup(a, MarkupWritten(p), Agent(Markup), N(p.markup.GetOr(0.0)), k);
  }

  predicate ObjectKey(k: Key) {
    k == SessionParams || k == PlatformConfig || k == WorkspaceCapability || k == Agent(DisputePolicy)
  }

  lemma ObjectsLookup(nc: NumberCodec, m: map<Key, Value>, p: Profile, services: seq<Service>, dispute: Option<Object>, k: Key)
    requires ObjectKey(k) ==> k !in m
    ensures Lookup(WriteObjects(m, p, dispute), k) == if ObjectKey(k) then FieldFor(nc, p, services, dispute, k) else Lookup(m, k)
  {
    var a := PutIf(m, HasFields(p.session), SessionParams, J(Obj(p.session.GetOr([]))));
    PutLookup(m, HasFields(p.session), SessionParams, J(Obj(p.session.GetOr([]))), k);
    var b := PutIf(a, HasFields(p.platformConfig), PlatformConfig, J(Obj(p.platformConfig.GetOr([]))));
    PutLookup(a, HasFields(p.platformConfig), PlatformConfig, J(Obj(p.platformConfig.GetOr([]))), k);
    var c := PutIf(b, p.workspaceCapability.Some?, WorkspaceCapability, J(Obj(p.workspaceCapability.GetOr([]))));
    PutLookup(b, p.workspaceCapability.Some?, WorkspaceCapability, J(Obj(p.workspaceCapability.GetOr([]))), k);
    PutLookup(c, dispute.Some?, Agent(DisputePolicy), J(Obj(dispute.GetOr([]))), k);
  }

  lemma NetworkOfCore(nc: NumberCodec, p: Profile, services: seq<Service>, dispute: Option<Object>, k: Key)
    ensures Lookup(WriteNetwork(WriteCore(nc, p, services), p), k) ==
      if CoreKey(k) || NetworkKey(k) then FieldFor(nc, p, services, dispute, k) else None
  {
    var core := WriteCore(nc, p, services);
    CoreLookup(nc, p, services, dispute, k);
    assert NetworkKey(k) ==> Lookup(core, k) == None;
    NetworkLookup(nc, core, p, services, dispute, k);
  }

  lemma BlobOfNetwork(nc: NumberCodec, p: Profile, services: seq<Service>, dispute: Option<Object>, k: Key)
    ensures Lookup(WriteBlob(WriteNetwork(WriteCore(nc, p, services), p), p), k) ==
      if CoreKey(k) || NetworkKey(k) || BlobKey(k) then FieldFor(nc, p, services, dispute, k) else None
  {
    var network := WriteNetwork(WriteCore(nc, p, services), p);
    NetworkOfCore(nc, p, services, dispute, k);
    assert BlobKey(k) ==> Lookup(network, k) == None;
    BlobLookup(nc, network, p, services, dispute, k);
  }

  lemma OtherKeys(nc: NumberCodec, p: Profile, services: seq<Service>, dispute: Option<Object>, k: Key)
    requires !CoreKey(k) && !NetworkKey(k) && !BlobKey(k) && !ObjectKey(k) && k != Agent(Models) && k != Agent(Markup)
    ensures FieldFor(nc, p, services, dispute, k) == None
  {
  }

  /** The builder puts every field under its own key, and writes no other key. */
  lemma EachFieldUnderItsKey(nc: NumberCodec, p: Profile, services: seq<Service>, dispute: Option<Object>, k: Key)
    ensures Lookup(Written(nc, Some(p), services, dispute), k) == FieldFor(nc, p, services, dispute, k)
  {
    var blob := WriteBlob(WriteNetwork(WriteCore(nc, p, services), p), p);
    BlobOfNetwork(nc, p, services, dispute, k);
    LaterKeys(nc, blob, p, services, dispute, k);
  }

  lemma LaterKeys(nc: NumberCodec, blob: map<Key, Value>, p: Profile, services: seq<Service>, dispute: Option<Object>, k: Key)
    requires Lookup(blob, k) == if CoreKey(k) || NetworkKey(k) || BlobKey(k) then FieldFor(nc, p, services, dispute, k) else None
    ensures Lookup(WriteObjects(WriteModels(blob, p), p, dispute), k) == FieldFor(nc, p, services, dispute, k)
  {
    ModelsLookup(nc, blob, p, services, dispute, k);
    var models := WriteModels(blob, p);
    assert ObjectKey(k) ==> Lookup(models, k) == None;
    ObjectsLookup(nc, models, p, services, dispute, k);
    if !CoreKey(k) && !NetworkKey(k) && !BlobKey(k) && !ObjectKey(k) && k != Agent(Models) && k != Agent(Markup) {
      OtherKeys(nc, p, services, dispute, k);
    }
  }

  // ---- whole publications ----

  /** What the map decodes to once the publication is on-chain. */
  function Republished(tc: TextCodec, nc: NumberCodec, older: ContentMap, profile: Option<Profile>,
                       services: seq<Service>, dispute: Option<Object>): Reading {
    Decode(tc, nc, Publication(tc, nc, older, profile, services, dispute))
  }

  /** The services the older map holds decode without an exception. */
  predicate OlderServicesRead(tc: TextCodec, nc: NumberCodec, older: ContentMap) {
    ReadServicesOf(tc, nc, Merged(older, map[])).Ok?
  }

  lemma NewServicesRead(tc: TextCodec, nc: NumberCodec, older: ContentMap, profile: Option<Profile>,
                        services: seq<Service>, dispute: Option<Object>)
    requires NumbersRoundTrip(nc) && Publishable(tc, nc, profile, services, dispute) && services != []
    ensures ReadServicesOf(tc, nc, Publication(tc, nc, older, profile, services, dispute)).Ok?
  {
    PrintedServicesAreNewest(tc, nc, older, profile, services, dispute);
    ServicesReadBack(tc, nc, services, if |services| <= MAX_SERVICES then |services| else MAX_SERVICES);
  }

  /** The decoder gets through exactly if services are published or the older ones decode. */
  lemma DecodesExactly(tc: TextCodec, nc: NumberCodec, older: ContentMap, profile: Option<Profile>,
                       services: seq<Service>, dispute: Option<Object>)
    requires NumbersRoundTrip(nc) && Publishable(tc, nc, profile, services, dispute)
    ensures var r := Republished(tc, nc, older, profile, services, dispute);
      && !r.Legacy?
      && (r.Flat? <==> services != [] || OlderServicesRead(tc, nc, older))
      && (r.Flat? ==> r.fields == FieldsFrom(tc, nc, Publication(tc, nc, older, profile, services, dispute), PROFILE_KEYS))
  {
    PublicationReads(tc, nc, older, profile, services, dispute);
    if services != [] { NewServicesRead(tc, nc, older, profile, services, dispute); }
  }

  lemma ReadKeysAreProfileKeys(k: Key)
    ensures ShapeOf(k).Some? <==> k in PROFILE_KEYS
  {
  }

  lemma DecodedField(tc: TextCodec, nc: NumberCodec, cmm: Additions, k: Key)
    ensures Lookup(FieldsFrom(tc, nc, cmm, PROFILE_KEYS), k) == ReadField(tc, nc, cmm, k)
  {
    ReadKeysAreProfileKeys(k);
  }

  /** The reading holds every profile field that was written. */
  ghost predicate HoldsWritten(r: Reading, w: map<Key, Value>) {
    r.Flat? && forall k :: k in w && ShapeOf(k).Some? ==> Lookup(r.fields, k) == Some(w[k])
  }

  /** Decoding gives every profile field and the dispute policy as they were written exactly if the
      profile is well-formed and, where no services are written, those in the older map decode: their
      exception takes the profile with it. */
  lemma ProfileRoundTrip(tc: TextCodec, nc: NumberCodec, older: ContentMap, profile: Option<Profile>,
                         services: seq<Service>, dispute: Option<Object>)
    requires NumbersRoundTrip(nc) && Publishable(tc, nc, profile, services, dispute)
    ensures HoldsWritten(Republished(tc, nc, older, profile, services, dispute), Written(nc, profile, services, dispute)) <==>
      WellFormed(profile) && (services != [] || OlderServicesRead(tc, nc, older))
  {
    var w, cmm := Written(nc, profile, services, dispute), Publication(tc, nc, older, profile, services, dispute);
    DecodesExactly(tc, nc, older, profile, services, dispute);
    FieldsRoundTrip(tc, nc, older, profile, services, dispute);
    forall k ensures Lookup(FieldsFrom(tc, nc, cmm, PROFILE_KEYS), k) == ReadField(tc, nc, cmm, k) { DecodedField(tc, nc, cmm, k); }
  }

  /** The failing input: an older services value cut off so that it is no JSON. No profile published
      without services is read after it, however well-formed. */
  lemma BrokenServicesHideProfile(tc: TextCodec, nc: NumberCodec, text: string, p: Profile, dispute: Option<Object>)
    requires NumbersRoundTrip(nc) && Publishable(tc, nc, Some(p), [], dispute)
    requires text != "" && tc.parse(text) == None
    ensures Republished(tc, nc, map[Agent(Services) := Arr([SubDD(tc.address(Agent(Services)), text)])], Some(p), [], dispute)
      == Threw("SyntaxError")
  {
    var older: ContentMap := map[Agent(Services) := Arr([SubDD(tc.address(Agent(Services)), text)])];
    SubDDReads(tc, tc.address(Agent(Services)), text);
    assert Newest(tc, Merged(older, map[]), Agent(Services)) == Some(Str(text));
    PublicationReads(tc, nc, older, Some(p), [], dispute);
  }

  /** What a publication is asked to make readable under one key; empty lists, texts and objects ask
      for nothing. */
  function Asked(nc: NumberCodec, profile: Option<Profile>, services: seq<Service>, dispute: Option<Object>, k: Key): Option<Value> {
    if ShapeOf(k).None? then None
    else if k == Agent(DisputePolicy) then IfObject(dispute)
    else if profile.None? then None
    else if k == Agent(Markup) then (if profile.value.markup.Some? then Some(N(profile.value.markup.value)) else None)
    else FieldFor(nc, profile.value, services, dispute, k)
  }

  /** The reading holds everything the publication was asked for, its services included. */
  ghost predicate HoldsAsked(nc: NumberCodec, r: Reading, profile: Option<Profile>, services: seq<Service>, dispute: Option<Object>) {
    && r.Flat?
    && (forall k :: Asked(nc, profile, services, dispute, k).Some? ==> Lookup(r.fields, k) == Asked(nc, profile, services, dispute, k))
    && (services != [] ==> r.services == Map(Given, services))
  }

  /** A profile whose markup, if given, is one the builder writes. */
  predicate FullyWritten(profile: Option<Profile>) { profile.Some? && profile.value.markup.Some? ==> MarkupWritten(profile.value) }

  /** The dispute policy is written, or not needed, or on-chain already. */
  predicate DisputeReadable(tc: TextCodec, nc: NumberCodec, older: ContentMap, profile: Option<Profile>, dispute: Option<Object>) {
    profile.None? && dispute.Some? ==> ReadField(tc, nc, Merged(older, map[]), Agent(DisputePolicy)) == IfObject(dispute)
  }

  lemma MarkupAndDispute(nc: NumberCodec, p: Profile, services: seq<Service>, dispute: Option<Object>)
    ensures FieldFor(nc, p, services, dispute, Agent(Markup)) == if MarkupWritten(p) then Some(N(p.markup.value)) else None
    ensures FieldFor(nc, p, services, dispute, Agent(DisputePolicy)) == IfObject(dispute)
  {
  }

  lemma AskedIsWritten(nc: NumberCodec, p: Profile, services: seq<Service>, dispute: Option<Object>, k: Key)
    requires FullyWritten(Some(p)) && ShapeOf(k).Some?
    ensures Asked(nc, Some(p), services, dispute, k) == Lookup(Written(nc, Some(p), services, dispute), k)
  {
    EachFieldUnderItsKey(nc, p, services, dispute, k);
    MarkupAndDispute(nc, p, services, dispute);
  }

  lemma UnwrittenMarkupIsLost(tc: TextCodec, nc: NumberCodec, cmm: Additions, p: Profile, services: seq<Service>, dispute: Option<Object>)
    requires !FullyWritten(Some(p))
    ensures Asked(nc, Some(p), services, dispute, Agent(Markup)).Some?
    ensures ReadField(tc, nc, cmm, Agent(Markup)) != Asked(nc, Some(p), services, dispute, Agent(Markup))
  {
  }

  /** The profile and the dispute policy come back as given. */
  ghost predicate FieldsAsAsked(tc: TextCodec, nc: NumberCodec, cmm: Additions, profile: Option<Profile>,
                                services: seq<Service>, dispute: Option<Object>) {
    forall k :: Asked(nc, profile, services, dispute, k).Some? ==> ReadField(tc, nc, cmm, k) == Asked(nc, profile, services, dispute, k)
  }

  lemma AskedOfProfile(tc: TextCodec, nc: NumberCodec, older: ContentMap, p: Profile, services: seq<Service>, dispute: Option<Object>)
    requires NumbersRoundTrip(nc) && Publishable(tc, nc, Some(p), services, dispute)
    ensures FieldsAsAsked(tc, nc, Publication(tc, nc, older, Some(p), services, dispute), Some(p), services, dispute) <==>
      WellFormed(Some(p)) && FullyWritten(Some(p))
  {
    var w, cmm := Written(nc, Some(p), services, dispute), Publication(tc, nc, older, Some(p), services, dispute);
    FieldsRoundTrip(tc, nc, older, Some(p), services, dispute);
    if FullyWritten(Some(p)) {
      forall k | ShapeOf(k).Some? ensures Asked(nc, Some(p), services, dispute, k) == Lookup(w, k) {
        AskedIsWritten(nc, p, services, dispute, k);
      }
    } else {
      UnwrittenMarkupIsLost(tc, nc, cmm, p, services, dispute);
    }
  }

  lemma AskedOfNoProfile(tc: TextCodec, nc: NumberCodec, older: ContentMap, services: seq<Service>, dispute: Option<Object>)
    ensures FieldsAsAsked(tc, nc, Publication(tc, nc, older, None, services, dispute), None, services, dispute) <==>
      DisputeReadable(tc, nc, older, None, dispute)
  {
    var cmm := Publication(tc, nc, older, None, services, dispute);
    UnwrittenFieldsStay(tc, nc, older, Written(nc, None, services, dispute), Agent(DisputePolicy));
    if dispute.Some? { assert Asked(nc, None, services, dispute, Agent(DisputePolicy)).Some?; }
  }

  /** Decoding gives everything a publication was asked for, as it was given, exactly if the profile
      is well-formed with a markup that is written, a dispute policy comes with a profile or is
      on-chain already, and the services are faithful or, where there are none, the older ones decode. */
  lemma PublicationRoundTrip(tc: TextCodec, nc: NumberCodec, older: ContentMap, profile: Option<Profile>,
                             services: seq<Service>, dispute: Option<Object>)
    requires NumbersRoundTrip(nc) && Publishable(tc, nc, profile, services, dispute)
    ensures HoldsAsked(nc, Republished(tc, nc, older, profile, services, dispute), profile, services, dispute) <==>
      && WellFormed(profile) && FullyWritten(profile) && DisputeReadable(tc, nc, older, profile, dispute)
      && (if services == [] then OlderServicesRead(tc, nc, older) else ServicesFaithful(services))
  {
    var cmm := Publication(tc, nc, older, profile, services, dispute);
    DecodesExactly(tc, nc, older, profile, services, dispute);
    PublicationReads(tc, nc, older, profile, services, dispute);
    forall k ensures Lookup(FieldsFrom(tc, nc, cmm, PROFILE_KEYS), k) == ReadField(tc, nc, cmm, k) { DecodedField(tc, nc, cmm, k); }
    if profile.Some? {
      AskedOfProfile(tc, nc, older, profile.value, services, dispute);
    } else {
      AskedOfNoProfile(tc, nc, older, services, dispute);
    }
  }

  /** The profile's own field, or what the older map reads where it has none. */
  function OwnOrOlder(tc: TextCodec, nc: NumberCodec, older: ContentMap, p: Profile,
                      services: seq<Service>, dispute: Option<Object>, k: Key): Option<Value> {
    match FieldFor(nc, p, services, dispute, k)
    case Some(v) => Some(v)
    case None => ReadField(tc, nc, Merged(older, map[]), k)
  }

  /** On an empty map nothing is read that was not written. */
  lemma UnwrittenIsUnread(tc: TextCodec, nc: NumberCodec, profile: Option<Profile>, services: seq<Service>, dispute: Option<Object>, k: Key)
    requires NumbersRoundTrip(nc) && Publishable(tc, nc, profile, services, dispute)
    requires k !in Written(nc, profile, services, dispute)
    ensures var r := Republished(tc, nc, map[], profile, services, dispute); r.Flat? && k !in r.fields
  {
    assert Merged(map[], map[]) == map[];
    DecodesExactly(tc, nc, map[], profile, services, dispute);
    UnwrittenFieldsStay(tc, nc, map[], Written(nc, profile, services, dispute), k);
  }

  /** Two failing inputs beside ill-formed profiles and services: a dispute policy published with
      services alone, and a markup out of range, leave nothing under their keys. */
  lemma DisputeAloneIsLost(tc: TextCodec, nc: NumberCodec, services: seq<Service>, dispute: Object)
    requires NumbersRoundTrip(nc) && Publishable(tc, nc, None, services, Some(dispute))
    ensures var r := Republished(tc, nc, map[], None, services, Some(dispute)); r.Flat? && Agent(DisputePolicy) !in r.fields
  {
    UnwrittenIsUnread(tc, nc, None, services, Some(dispute), Agent(DisputePolicy));
  }

  lemma MarkupOutOfRangeIsLost(tc: TextCodec, nc: NumberCodec, p: Profile, services: seq<Service>, dispute: Option<Object>)
    requires NumbersRoundTrip(nc) && Publishable(tc, nc, Some(p), services, dispute) && !FullyWritten(Some(p))
    ensures var r := Republished(tc, nc, map[], Some(p), services, dispute); r.Flat? && Agent(Markup) !in r.fields
  {
    EachFieldUnderItsKey(nc, p, services, dispute, Agent(Markup));
    MarkupAndDispute(nc, p, services, dispute);
    UnwrittenIsUnread(tc, nc, Some(p), services, dispute, Agent(Markup));
  }

  lemma PublishedField(tc: TextCodec, nc: NumberCodec, older: ContentMap, p: Profile,
                       services: seq<Service>, dispute: Option<Object>, k: Key)
    requires NumbersRoundTrip(nc) && Publishable(tc, nc, Some(p), services, dispute)
    requires WellFormed(Some(p)) && ShapeOf(k).Some?
    ensures ReadField(tc, nc, Publication(tc, nc, older, Some(p), services, dispute), k) ==
      OwnOrOlder(tc, nc, older, p, services, dispute, k)
  {
    var w := Written(nc, Some(p), services, dispute);
    EachFieldUnderItsKey(nc, p, services, dispute, k);
    if k in w {
      FieldsRoundTrip(tc, nc, older, Some(p), services, dispute);
    } else {
      UnwrittenFieldsStay(tc, nc, older, w, k);
    }
  }

  /** Decoding what a well-formed profile adds to any older map - empty, flat or legacy - gives, under
      every profile key, the profile's own field, and the older value where it has none; it fails
      only where no services are published and the older ones do not decode. */
  lemma PublishedFieldsRead(tc: TextCodec, nc: NumberCodec, older: ContentMap, p: Profile,
                            services: seq<Service>, dispute: Option<Object>, k: Key)
    requires NumbersRoundTrip(nc) && Publishable(tc, nc, Some(p), services, dispute)
    requires WellFormed(Some(p)) && ShapeOf(k).Some?
    ensures var r := Republished(tc, nc, older, Some(p), services, dispute);
      && (r.Flat? <==> services != [] || OlderServicesRead(tc, nc, older))
      && (r.Flat? ==> Lookup(r.fields, k) == OwnOrOlder(tc, nc, older, p, services, dispute, k))
  {
    DecodesExactly(tc, nc, older, Some(p), services, dispute);
    DecodedField(tc, nc, Publication(tc, nc, older, Some(p), services, dispute), k);
    PublishedField(tc, nc, older, p, services, dispute, k);
  }
}
