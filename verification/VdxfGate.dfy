/** The per-type gate an inbox item passes before its values may reach the identity. */
module VdxfGate {
  import opened Prelude
  import opened Vdxf

  datatype ItemType = Review | Attestation | JobRecordItem | Unsupported(name: string)

  /** The part of an inbox item the gate reads. An absent payload is the empty map. */
  datatype InboxItem = InboxItem(
    pending: bool,
    itemType: Option<ItemType>,
    vdxfData: map<Key, Json>,
    senderVerusId: string,
    jobHash: string,
    amount: Json,
    currency: Json,
    completedAt: Json)

  datatype GateError = UnsupportedType | NothingAllowed | RefusesToSynthesize

  function Allowlist(t: ItemType): Option<set<Key>> {
    match t
    case Review => Some({ReviewRecord})
    case Attestation => Some({ReviewAttestation})
    case JobRecordItem => Some({JobRecord})
    case Unsupported(_) => None
  }

  /** Whether type t may write key k. */
  predicate Allows(t: ItemType, k: Key) {
    Allowlist(t).Some? && k in Allowlist(t).value
  }

  /** The one key a supported type may write. */
  function KeyOf(t: ItemType): Key {
    match t
    case Review => ReviewRecord
    case Attestation => ReviewAttestation
    case JobRecordItem => JobRecord
    case Unsupported(name) => Other(name)
  }

  function SynthesizedRecord(item: InboxItem, now: nat): Json {
    Obj([("timestamp", Num(now))]
        + (if item.senderVerusId != "" then [("buyer", Str(item.senderVerusId))] else [])
        + (if item.jobHash != "" then [("jobHash", Str(item.jobHash))] else [])
        + (if item.amount != Null then [("amount", item.amount)] else [])
        + (if Truthy(item.currency) then [("currency", item.currency)] else [])
        + (if Truthy(item.completedAt) then [("completedAt", item.completedAt)] else []))
  }

  function Synthesized(tc: TextCodec, item: InboxItem, now: nat): Additions {
    map[JobRecord := [SubDD(tc.address(JobRecord), tc.stringify(SynthesizedRecord(item, now)))]]
  }

  /** What one item may write, decided by its own type alone. */
  function GatedAdditions(tc: TextCodec, t: ItemType, item: InboxItem, now: nat): Result<Additions, GateError> {
    if Allowlist(t).None? then Err(UnsupportedType)
    else if item.vdxfData.Keys != {} then
      var kept := map k | k in item.vdxfData && item.vdxfData[k] != Null && Allows(t, k) :: AsArray(item.vdxfData[k]);
      if kept.Keys == {} then Err(NothingAllowed) else Ok(kept)
    else if t == JobRecordItem then Ok(Synthesized(tc, item, now))
    else Err(RefusesToSynthesize)
  }

  /** buildInboxVdxfAdditions. The entries are visited in any order. */
  method BuildInboxVdxfAdditions(tc: TextCodec, t: ItemType, item: InboxItem, now: nat)
    returns (r: Result<Additions, GateError>)
    ensures r == GatedAdditions(tc, t, item, now)
  {
    var allow := Allowlist(t);
    if allow.None? { return Err(UnsupportedType); }
    if item.vdxfData.Keys != {} {
      var additions: Additions := map[];
      var rest := item.vdxfData.Keys;
      while rest != {}
        invariant rest <= item.vdxfData.Keys
        invariant additions == map k | k in item.vdxfData && k !in rest
                                      && item.vdxfData[k] != Null && Allows(t, k) :: AsArray(item.vdxfData[k])
        decreases rest
      {
        var key :| key in rest;
        rest := rest - {key};
        var value := item.vdxfData[key];
        if value == Null { continue; }
        if key !in allow.value { continue; }
        additions := additions[key := AsArray(value)];
      }
      assert additions == map k | k in item.vdxfData && item.vdxfData[k] != Null && Allows(t, k)
          :: AsArray(item.vdxfData[k]);
      if additions.Keys == {} { return Err(NothingAllowed); }
      return Ok(additions);
    }
    if t == JobRecordItem { return Ok(Synthesized(tc, item, now)); }
    return Err(RefusesToSynthesize);
  }

  /** The payload keys one type lets through are exactly the ones it allows, with their values
      untouched; without a payload only a job record is made up, and only under its own key. */
  lemma GateIsTight(tc: TextCodec, t: ItemType, item: InboxItem, now: nat)
    ensures var r := GatedAdditions(tc, t, item, now);
      && (r.Ok? ==> r.value.Keys != {} && forall k :: k in r.value ==> Allows(t, k))
      && (r.Ok? && item.vdxfData.Keys != {} ==>
            forall k :: k in r.value <==> Allows(t, k) && k in item.vdxfData && item.vdxfData[k] != Null)
      && (r.Ok? && item.vdxfData.Keys != {} ==>
            forall k :: k in r.value ==> r.value[k] == AsArray(item.vdxfData[k]))
      && (item.vdxfData.Keys == {} ==> (r.Ok? <==> t == JobRecordItem))
  {
    if item.vdxfData.Keys == {} && t == JobRecordItem {
      assert JobRecord in Synthesized(tc, item, now);
    }
  }

  /** One allowed value is enough to pass. */
  lemma AllowedValuePasses(tc: TextCodec, t: ItemType, item: InboxItem, now: nat, k: Key)
    requires k in item.vdxfData && item.vdxfData[k] != Null && Allows(t, k)
    ensures var r := GatedAdditions(tc, t, item, now); r.Ok? && k in r.value && r.value[k] == AsArray(item.vdxfData[k])
  {
    var kept := map k | k in item.vdxfData && item.vdxfData[k] != Null && Allows(t, k) :: AsArray(item.vdxfData[k]);
    assert k in item.vdxfData.Keys && k in kept.Keys;
  }

  function ArraySize(tc: TextCodec, values: seq<Json>): nat {
    if values == [] then 0 else ArraySize(tc, values[..|values| - 1]) + ValueByteSize(tc, values[|values| - 1])
  }

  function Sizes(tc: TextCodec, a: Additions): (sizes: map<Key, nat>)
    ensures sizes.Keys == a.Keys
  {
    map k | k in a :: ArraySize(tc, a[k])
  }

  /** Total bytes of an additions map. */
  ghost function AdditionsSize(tc: TextCodec, a: Additions): nat { Total(Sizes(tc, a)) }

  method AdditionsByteSize(tc: TextCodec, a: Additions) returns (total: nat)
    ensures total == AdditionsSize(tc, a)
  {
    total := 0;
    ghost var sizes := Sizes(tc, a);
    var rest := a.Keys;
    assert sizes == map k | k in rest :: sizes[k];
    while rest != {}
      invariant rest <= a.Keys
      invariant total + Total(map k | k in rest :: sizes[k]) == Total(sizes)
      decreases rest
    {
      var key :| key in rest;
      ghost var before: map<Key, nat> := map k | k in rest :: sizes[k];
      TotalRemove(before, key);
      assert before - {key} == map k | k in rest - {key} :: sizes[k];
      rest := rest - {key};
      var size := 0;
      for i := 0 to |a[key]|
        invariant size == ArraySize(tc, a[key][..i])
      {
        assert a[key][..i + 1][..i] == a[key][..i];
        size := size + ValueByteSize(tc, a[key][i]);
      }
      assert a[key][..|a[key]|] == a[key];
      total := total + size;
    }
  }

  /** assertContentmultimapValueSizes: no single value exceeds the on-chain limit. */
  predicate ValueSizesOk(tc: TextCodec, a: Additions) {
    forall k :: k in a ==> forall v :: v in a[k] ==> ValueByteSize(tc, v) <= MAX_CONTENTMULTIMAP_VALUE_BYTES
  }

  lemma NoAdditionsNoSize(tc: TextCodec)
    ensures AdditionsSize(tc, map[]) == 0
  {
    assert Sizes(tc, map[]).Keys == {};
  }

  lemma SizeOfDisjointUnion(tc: TextCodec, a: Additions, b: Additions)
    requires a.Keys !! b.Keys
    ensures AdditionsSize(tc, a + b) == AdditionsSize(tc, a) + AdditionsSize(tc, b)
  {
    assert Sizes(tc, a + b) == Sizes(tc, a) + Sizes(tc, b);
    TotalDisjointUnion(Sizes(tc, a), Sizes(tc, b));
  }
}
