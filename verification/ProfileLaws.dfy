/** What decoding makes of maps and services the agent did not write itself. */
module ProfileLaws {
  import opened Prelude
  import opened Vdxf
  import opened ServiceCodec
  import opened VdxfProfile

  // ---- which decoder reads ----

  lemma AllAgentFields(f: AgentField)
    ensures f in AGENT_FIELDS
  {
  }

  /** A map takes the legacy route exactly if it holds the legacy container and no agent key at all. */
  lemma LegacyExactly(tc: TextCodec, nc: NumberCodec, cmm: Additions)
    ensures Decode(tc, nc, cmm).Legacy? <==> LegacyAgent in cmm && forall f: AgentField :: Agent(f) !in cmm
  {
    forall f: AgentField ensures f in AGENT_FIELDS { AllAgentFields(f); }
  }

  // ---- what may come out ----

  /** What a caller may rely on under each key, whoever wrote the map. */
  predicate Sane(k: Key, v: Value) {
    match k
    case Agent(PayAddress) => v.J? && v.j.Str? && IsVerusAddress(v.j.s)
    case Agent(Markup) => v.N? && 1.0 <= v.x <= 50.0
    case Agent(Models) => v.J? && v.j.Arr?
    case SessionParams => v.J? && (v.j.Obj? || v.j.Arr?)
    case PlatformConfig => v.J? && (v.j.Obj? || v.j.Arr?)
    case WorkspaceCapability => v.J? && (v.j.Obj? || v.j.Arr?)
    case Agent(DisplayName) => v.J? && Truthy(v.j)
    case Agent(Type) => v.J? && Truthy(v.j)
    case Agent(Description) => v.J? && Truthy(v.j)
    case Agent(ProfileWebsite) => v.J? && Truthy(v.j)
    case Agent(ProfileAvatar) => v.J? && Truthy(v.j)
    case Agent(ProfileCategory) => v.J? && Truthy(v.j)
    case Agent(NetworkCapabilities) => v.J?
    case Agent(NetworkEndpoints) => v.J?
    case Agent(NetworkProtocols) => v.J?
    case Agent(ProfileTags) => v.J?
    case Agent(DisputePolicy) => v.J?
    case _ => false
  }

  lemma FieldIsSane(tc: TextCodec, nc: NumberCodec, cmm: Additions, k: Key)
    ensures ReadField(tc, nc, cmm, k).Some? ==> Sane(k, ReadField(tc, nc, cmm, k).value)
  {
  }

  /** Whatever the map holds, no payout address comes out that is none, no markup out of range, no models
      that are no list, no block that is no container, and nothing under any other key. */
  lemma DecodedFieldsAreSane(tc: TextCodec, nc: NumberCodec, cmm: Additions)
    requires Decode(tc, nc, cmm).Flat?
    ensures forall k :: k in Decode(tc, nc, cmm).fields ==> Sane(k, Decode(tc, nc, cmm).fields[k])
  {
    forall k | k in Decode(tc, nc, cmm).fields ensures Sane(k, Decode(tc, nc, cmm).fields[k]) { FieldIsSane(tc, nc, cmm, k); }
  }

  /** A service with a name, prices in range and a short list of them. */
  predicate SaneService(d: Decoded) {
    && Truthy(d.name)
    && (d.price.Some? ==> 0.0 <= d.price.value <= 1000000000.0)
    && (d.resolutionWindow.Some? ==> 0.0 <= d.resolutionWindow.value <= 1000000000000.0)
    && (d.accepted.Some? ==> |d.accepted.value| <= 49 && AllPriced(d.accepted.value))
  }

  predicate AllPriced(prices: seq<(Option<Json>, Option<real>)>) {
    forall i :: 0 <= i < |prices| ==> prices[i].1.Some? && 0.0 <= prices[i].1.value <= 1000000000.0
  }

  lemma {:induction false} KnownAreInRange(prices: seq<(Option<Json>, Option<real>)>)
    requires forall i :: 0 <= i < |prices| && prices[i].1.Some? ==> 0.0 <= prices[i].1.value <= MAX_PRICE
    ensures |KnownPrices(prices)| <= |prices|
    ensures AllPriced(KnownPrices(prices))
  {
    if prices != [] {
      assert forall i :: 0 <= i < |prices[1..]| ==> prices[1..][i] == prices[i + 1];
      KnownAreInRange(prices[1..]);
    }
  }

  lemma AcceptedAreSane(nc: NumberCodec, v: Json)
    ensures var accepted := ReadAccepted(nc, ReadPricing(v));
      accepted.Some? ==> |accepted.value| <= 49 && AllPriced(accepted.value)
  {
    var ps := ReadPricing(v);
    if |ps| > 1 { KnownAreInRange(Map(p => (Field(p, "currency"), PriceOf(nc, p)), ps[1..])); }
  }

  lemma ServiceIsSane(tc: TextCodec, nc: NumberCodec, v: Json)
    ensures var r := ReadService(tc, nc, v); r.Ok? && r.value.Some? ==> SaneService(r.value.value)
  {
    AcceptedAreSane(nc, v);
  }

  lemma {:induction false} CollectedAreSane(outcomes: seq<Result<Option<Decoded>, string>>)
    requires forall i :: 0 <= i < |outcomes| ==> outcomes[i].Ok? && outcomes[i].value.Some? ==> SaneService(outcomes[i].value.value)
    ensures Collect(outcomes).Ok? ==>
      |Collect(outcomes).value| <= |outcomes| && forall d :: d in Collect(outcomes).value ==> SaneService(d)
  {
    if outcomes != [] { CollectedAreSane(outcomes[..|outcomes| - 1]); }
  }

  /** Whatever stands under the services key, at most 100 services come out, all with a name, prices
      and windows in range, and at most 49 accepted currencies, each with a price. */
  lemma DecodedServicesAreSane(tc: TextCodec, nc: NumberCodec, raw: Json)
    requires ReadServices(tc, nc, raw).Ok?
    ensures var ds := ReadServices(tc, nc, raw).value; |ds| <= 100 && forall d :: d in ds ==> SaneService(d)
  {
    var vs := Published(tc, raw).value;
    var outcomes := Reads(tc, nc, vs);
    forall i | 0 <= i < |outcomes| ensures outcomes[i].Ok? && outcomes[i].value.Some? ==> SaneService(outcomes[i].value.value) {
      ServiceIsSane(tc, nc, vs[i]);
    }
    CollectedAreSane(outcomes);
  }

  // ---- forms that read alike ----

  /** The same field, but a flag may stand as the text "true" or "false" and an object as its JSON text. */
  ghost predicate SameButForm(tc: TextCodec, name: string, a: Option<Json>, b: Option<Json>) {
    || a == b
    || ((name == "privateMode" || name == "sovguard")
        && a.Some? && a.value.Bool? && b == Some(Str(if a.value.b then "true" else "false")))
    || ((name == "refundPolicy" || name == "costBreakdown")
        && a.Some? && a.value.Obj? && b.Some? && b.value.Str? && b.value.s != "" && tc.parse(b.value.s) == a)
  }

  /** The fields that have one form only agree. */
  predicate PlainFieldsAgree(v: Json, w: Json) {
    && Field(v, "name") == Field(w, "name") && Field(v, "status") == Field(w, "status")
    && Field(v, "description") == Field(w, "description") && Field(v, "category") == Field(w, "category")
    && Field(v, "pricing") == Field(w, "pricing") && Field(v, "turnaround") == Field(w, "turnaround")
    && Field(v, "paymentTerms") == Field(w, "paymentTerms") && Field(v, "resolutionWindow") == Field(w, "resolutionWindow")
  }

  lemma PlainField(tc: TextCodec, v: Json, w: Json, name: string)
    requires SameButForm(tc, name, Field(v, name), Field(w, name))
    requires name != "privateMode" && name != "sovguard" && name != "refundPolicy" && name != "costBreakdown"
    ensures Field(v, name) == Field(w, name)
  {
  }

  ghost predicate AllSameButForm(tc: TextCodec, v: Json, w: Json) {
    forall name :: SameButForm(tc, name, Field(v, name), Field(w, name))
  }

  lemma PlainAgree(tc: TextCodec, v: Json, w: Json)
    requires AllSameButForm(tc, v, w)
    ensures PlainFieldsAgree(v, w)
  {
    PlainField(tc, v, w, "name");
    PlainField(tc, v, w, "status");
    PlainField(tc, v, w, "description");
    PlainField(tc, v, w, "category");
    PlainField(tc, v, w, "pricing");
    PlainField(tc, v, w, "turnaround");
    PlainField(tc, v, w, "paymentTerms");
    PlainField(tc, v, w, "resolutionWindow");
  }

  lemma ReadFromParts(tc: TextCodec, nc: NumberCodec, v: Json, w: Json)
    requires v.Obj? && w.Obj? && PlainFieldsAgree(v, w)
    requires FlagOf(v, "privateMode") == FlagOf(w, "privateMode") && FlagOf(v, "sovguard") == FlagOf(w, "sovguard")
    requires ReadObject(tc, v, "refundPolicy") == ReadObject(tc, w, "refundPolicy")
    requires ReadObject(tc, v, "costBreakdown") == ReadObject(tc, w, "costBreakdown")
    ensures ReadService(tc, nc, v) == ReadService(tc, nc, w)
  {
    assert ReadPricing(v) == ReadPricing(w);
  }

  /** Services whose fields are the same but for their form read alike. */
  lemma FormsReadAlike(tc: TextCodec, nc: NumberCodec, v: Json, w: Json)
    requires v.Obj? && w.Obj? && AllSameButForm(tc, v, w)
    ensures ReadService(tc, nc, v) == ReadService(tc, nc, w)
  {
    PlainAgree(tc, v, w);
    FlagsReadAlike(tc, v, w, "privateMode");
    FlagsReadAlike(tc, v, w, "sovguard");
    ObjectsReadAlike(tc, v, w, "refundPolicy");
    ObjectsReadAlike(tc, v, w, "costBreakdown");
    ReadFromParts(tc, nc, v, w);
  }

  lemma FlagsReadAlike(tc: TextCodec, v: Json, w: Json, name: string)
    requires name == "privateMode" || name == "sovguard"
    requires SameButForm(tc, name, Field(v, name), Field(w, name))
    ensures FlagOf(v, name) == FlagOf(w, name)
  {
    assert |"true"| != |"false"|;
  }

  lemma ObjectsReadAlike(tc: TextCodec, v: Json, w: Json, name: string)
    requires name == "refundPolicy" || name == "costBreakdown"
    requires SameButForm(tc, name, Field(v, name), Field(w, name))
    ensures ReadObject(tc, v, name) == ReadObject(tc, w, name)
  {
  }

  /** A price may stand under either name; the amount counts if both are there. */
  lemma PriceUnderEitherName(nc: NumberCodec, p: Json, q: Json)
    requires Present(p, "amount").Some?
    requires Present(q, "amount").None? && Field(q, "price") == Field(p, "amount")
    ensures PriceOf(nc, p) == PriceOf(nc, q)
    ensures PriceOf(nc, p).Some? ==> nc.number(Field(p, "amount").value) == PriceOf(nc, p)
  {
  }

  // ---- merging ----

  /** `all` is `older` and then `newer`, value by value. */
  predicate Follows(all: seq<Json>, older: seq<Json>, newer: seq<Json>) {
    && |all| == |older| + |newer|
    && (forall i :: 0 <= i < |older| ==> all[i] == older[i])
    && (forall i :: 0 <= i < |newer| ==> all[|older| + i] == newer[i])
  }

  lemma SumFollows(older: seq<Json>, newer: seq<Json>)
    ensures Follows(older + newer, older, newer)
  {
  }

  /** Merging keeps every value of the older map in its place and appends the new ones in theirs. */
  lemma MergeKeepsBoth(existing: ContentMap, additions: Additions, k: Key)
    ensures var merged := Merged(existing, additions);
      var older := if k !in existing then [] else if existing[k].Arr? then existing[k].elems else [existing[k]];
      var newer := if k in additions then additions[k] else [];
      (k in merged <==> k in existing || k in additions) && (k in merged ==> Follows(merged[k], older, newer))
  {
    SumFollows(if k in existing then AsArray(existing[k]) else [], if k in additions then additions[k] else []);
  }

  // ---- broken services ----

  /** Reading the element throws: it is null, or it has a name and then null among its first fifty
      prices or a policy or breakdown that is a text but no JSON. */
  predicate Breaks(tc: TextCodec, v: Json) {
    || v.Null?
    || (Named(v) && (NullPriced(v) || BrokenText(tc, Field(v, "refundPolicy")) || BrokenText(tc, Field(v, "costBreakdown"))))
  }

  predicate Named(v: Json) { Field(v, "name").Some? && Truthy(Field(v, "name").value) }

  predicate NullPriced(v: Json) {
    match Field(v, "pricing")
    case Some(Arr(ps)) => exists i :: 0 <= i < |ps| && i < 50 && ps[i].Null?
    case _ => false
  }

  predicate BrokenText(tc: TextCodec, f: Option<Json>) {
    match f
    case Some(Str(s)) => s != "" && tc.parse(s).None?
    case _ => false
  }

  lemma NullPricedExactly(v: Json)
    ensures NullPriced(v) <==> Null in ReadPricing(v)
  {
    var ps := ReadPricing(v);
    if NullPriced(v) {
      var i :| 0 <= i < |Field(v, "pricing").value.elems| && i < 50 && Field(v, "pricing").value.elems[i].Null?;
      assert ps[i] == Null;
    }
    if Null in ps {
      var i :| 0 <= i < |ps| && ps[i] == Null;
      assert Field(v, "pricing").value.elems[i].Null?;
    }
  }

  /** An element throws exactly if it breaks, and otherwise gives a service exactly if it is named. */
  lemma ElementExactly(tc: TextCodec, nc: NumberCodec, v: Json)
    ensures ReadService(tc, nc, v).Err? <==> Breaks(tc, v)
    ensures !Breaks(tc, v) ==> (ReadService(tc, nc, v).value.Some? <==> Named(v))
  {
    NullPricedExactly(v);
  }

  lemma {:induction false} CollectThrows<T>(outcomes: seq<Result<Option<T>, string>>)
    ensures Collect(outcomes).Err? <==> exists i :: 0 <= i < |outcomes| && outcomes[i].Err?
  {
    if outcomes != [] {
      var n := |outcomes| - 1;
      CollectThrows(outcomes[..n]);
      if i :| 0 <= i < |outcomes| && outcomes[i].Err? {
        assert i < n ==> outcomes[..n][i].Err?;
      }
      if i :| 0 <= i < n && outcomes[..n][i].Err? { assert outcomes[i].Err?; }
    }
  }

  /** Decoding services throws exactly if their value is a text but no JSON, or an array one of whose
      first hundred elements breaks. */
  lemma ServicesThrowExactly(tc: TextCodec, nc: NumberCodec, raw: Json)
    ensures ReadServices(tc, nc, raw).Err? <==>
      match (if raw.Str? then tc.parse(raw.s) else Some(raw))
      case None => true
      case Some(Arr(vs)) => exists i :: 0 <= i < |vs| && i < 100 && Breaks(tc, vs[i])
      case Some(_) => false
  {
    if Published(tc, raw).Ok? {
      var vs := Published(tc, raw).value;
      var outcomes := Reads(tc, nc, vs);
      CollectThrows(outcomes);
      forall i | 0 <= i < |vs| ensures outcomes[i].Err? <==> Breaks(tc, vs[i]) { ElementExactly(tc, nc, vs[i]); }
      BreaksAmong(tc, outcomes, vs);
    }
  }

  lemma BreaksAmong(tc: TextCodec, outcomes: seq<Result<Option<Decoded>, string>>, vs: seq<Json>)
    requires |outcomes| == |vs| && forall i :: 0 <= i < |vs| ==> (outcomes[i].Err? <==> Breaks(tc, vs[i]))
    ensures (exists i :: 0 <= i < |outcomes| && outcomes[i].Err?) <==> exists i :: 0 <= i < |vs| && Breaks(tc, vs[i])
  {
    if i :| 0 <= i < |outcomes| && outcomes[i].Err? { assert Breaks(tc, vs[i]); }
    if i :| 0 <= i < |vs| && Breaks(tc, vs[i]) { assert outcomes[i].Err?; }
  }

  // ---- wrapped values ----

  /** A wrapped value is read as its message, or, if it is hex text, as the JSON that spells, or as the
      text itself if it spells none. */
  lemma WrappedValuesAreRead(tc: TextCodec, name: string, message: string, e: Json, hex: string)
    requires Descriptor(e).Some? && Field(Descriptor(e).value, "objectdata") == Some(Str(hex))
    ensures SubValue(tc, SubDD(name, message)) == Some(Str(message))
    ensures SubValue(tc, e) ==
      match tc.parse(tc.unhex(hex))
      case None => Some(Str(hex))
      case Some(Null) => None
      case Some(v) => Some(v)
  {
    SubDDReads(tc, name, message);
  }
}
