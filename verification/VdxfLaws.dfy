/** What the gate lets through, what it makes up, and what the readers make of it. */
module VdxfLaws {
  import opened Prelude
  import opened Vdxf
  import opened VdxfGate

  // ---- the gate ----

  /** A supported item with a payload adds the value under its own key, as an array, if that is not
      null, and nothing else; without a payload only a job record passes. Everything else is refused,
      an unsupported type first. */
  lemma GateExactly(tc: TextCodec, t: ItemType, item: InboxItem, now: nat)
    ensures var r, k := GatedAdditions(tc, t, item, now), KeyOf(t);
      if t.Unsupported? then r == Err(UnsupportedType)
      else if |item.vdxfData| > 0 then
        if k in item.vdxfData && !item.vdxfData[k].Null?
        then r == Ok(map[k := if item.vdxfData[k].Arr? then item.vdxfData[k].elems else [item.vdxfData[k]]])
        else r == Err(NothingAllowed)
      else if t.JobRecordItem? then r == Ok(Synthesized(tc, item, now))
      else r == Err(RefusesToSynthesize)
  {
    var k := KeyOf(t);
    assert |item.vdxfData| > 0 <==> item.vdxfData.Keys != {} by { assert |item.vdxfData| == |item.vdxfData.Keys|; }
    assert !t.Unsupported? ==> forall l :: Allows(t, l) <==> l == k;
    var kept := map l | l in item.vdxfData && item.vdxfData[l] != Null && Allows(t, l) :: AsArray(item.vdxfData[l]);
    if !t.Unsupported? && k in item.vdxfData && item.vdxfData[k] != Null {
      assert kept.Keys == {k};
      assert kept == map[k := AsArray(item.vdxfData[k])];
    } else if !t.Unsupported? {
      assert kept.Keys == {};
    }
  }

  // ---- the record it makes up ----

  lemma {:induction false} GetAppend(a: seq<(string, Json)>, b: seq<(string, Json)>, name: string)
    ensures Get(a + b, name) == if Get(a, name).Some? then Get(a, name) else Get(b, name)
  {
    if a == [] {
      assert a + b == b;
    } else {
      GetAppend(a[1..], b, name);
      assert (a + b)[1..] == a[1..] + b;
    }
  }

  function Given(cond: bool, name: string, v: Json): (fields: seq<(string, Json)>)
    ensures forall n :: Get(fields, n) == if cond && n == name then Some(v) else None
  {
    if cond then [(name, v)] else []
  }

  /** The record holds the second it was made up in and, each under its own name, the sender and the
      job hash if they are given, an amount unless it is null, a currency and a time of completion if
      they say anything - and no other field. */
  lemma SynthesizedRecordExactly(item: InboxItem, now: nat, name: string)
    ensures SynthesizedRecord(item, now).Obj?
    ensures Field(SynthesizedRecord(item, now), name) ==
      if name == "timestamp" then Some(Num(now))
      else if name == "buyer" && |item.senderVerusId| > 0 then Some(Str(item.senderVerusId))
      else if name == "jobHash" && |item.jobHash| > 0 then Some(Str(item.jobHash))
      else if name == "amount" && !item.amount.Null? then Some(item.amount)
      else if name == "currency" && Truthy(item.currency) then Some(item.currency)
      else if name == "completedAt" && Truthy(item.completedAt) then Some(item.completedAt)
      else None
  {
    var time := Given(true, "timestamp", Num(now));
    var buyer := Given(item.senderVerusId != "", "buyer", Str(item.senderVerusId));
    var hash := Given(item.jobHash != "", "jobHash", Str(item.jobHash));
    var amount := Given(item.amount != Null, "amount", item.amount);
    var currency := Given(Truthy(item.currency), "currency", item.currency);
    var done := Given(Truthy(item.completedAt), "completedAt", item.completedAt);
    GetAppend(time + buyer + hash + amount + currency, done, name);
    GetAppend(time + buyer + hash + amount, currency, name);
    GetAppend(time + buyer + hash, amount, name);
    GetAppend(time + buyer, hash, name);
    GetAppend(time, buyer, name);
  }

  // ---- reading a review ----

  lemma MessageOfSubDD(name: string, message: string)
    ensures Descriptor(SubDD(name, message)).Some?
    ensures var od := Field(Descriptor(SubDD(name, message)).value, "objectdata");
      od.Some? && MessageOf(od.value) == Some(message) && od.value.Obj?
  {
    var dd := SubDD(name, message).fields[0].1;
    var f := dd.fields;
    assert |"version"| != |"objectdata"| && |"flags"| != |"objectdata"| && |"mimetype"| != |"objectdata"|;
    assert f == f[..1] + (f[1..2] + (f[2..3] + f[3..]));
    GetAppend(f[..1], f[1..2] + (f[2..3] + f[3..]), "objectdata");
    GetAppend(f[1..2], f[2..3] + f[3..], "objectdata");
    GetAppend(f[2..3], f[3..], "objectdata");
    assert Get(f, "objectdata") == Some(f[3].1);
  }

  /** A review record as it is stored: as JSON text in a wrapper, in hex, or as the object itself. */
  ghost predicate Stores(tc: TextCodec, v: Json, record: Json) {
    var text := tc.stringify(record);
    || (exists name :: v == SubDD(name, text) && !IsHexText(text))
    || (v.Str? && IsHexText(v.s) && tc.unhex(v.s) == text)
    || (v == record && Descriptor(record).None?)
  }

  /** However it is stored, a record is read as it was, and both readers find its job. */
  lemma StoredRecordIsRead(tc: TextCodec, v: Json, record: Json)
    requires record.Obj? && PrintsBack(tc, record) && Stores(tc, v, record)
    ensures DecodeReviewValue(tc, v) == Some(record)
    ensures ReviewJobHash(tc, v) == ExtractJobHash(tc, v) ==
      match Field(record, "jobHash")
      case Some(Str(h)) => Some(h)
      case _ => None
  {
    if Descriptor(v).Some? {
      var name :| v == SubDD(name, tc.stringify(record));
      MessageOfSubDD(name, tc.stringify(record));
    }
  }

  /** Only objects are records: no other value is one, nor is a text that holds another value or none. */
  lemma OnlyObjectsAreRecords(tc: TextCodec, v: Json)
    ensures DecodeReviewValue(tc, v).Some? ==> DecodeReviewValue(tc, v).value.Obj?
    ensures !v.Obj? && !v.Str? ==> DecodeReviewValue(tc, v).None?
    ensures v.Str? && TextToJson(tc, v.s).None? ==> DecodeReviewValue(tc, v).None?
  {
  }

  /** What the gate makes up is one wrapped value that reads as the record. */
  lemma MadeUpIsRead(tc: TextCodec, item: InboxItem, now: nat)
    requires PrintsBack(tc, SynthesizedRecord(item, now)) && !IsHexText(tc.stringify(SynthesizedRecord(item, now)))
    ensures var a := Synthesized(tc, item, now);
      a.Keys == {JobRecord} && |a[JobRecord]| == 1 && DecodeReviewValue(tc, a[JobRecord][0]) == Some(SynthesizedRecord(item, now))
  {
    var record := SynthesizedRecord(item, now);
    var v := SubDD(tc.address(JobRecord), tc.stringify(record));
    assert JobRecord in Synthesized(tc, item, now);
    StoredRecordIsRead(tc, v, record);
  }

  // ---- sizes ----

  lemma {:induction false} ArraySizeIsSum(tc: TextCodec, values: seq<Json>)
    ensures ArraySize(tc, values) == Sum(Map((v: Json) => ValueByteSize(tc, v), values))
  {
    var sizes := Map((v: Json) => ValueByteSize(tc, v), values);
    if values != [] {
      var n := |values| - 1;
      ArraySizeIsSum(tc, values[..n]);
      assert sizes[..n] == Map((v: Json) => ValueByteSize(tc, v), values[..n]);
    }
  }

  /** Additions under one key weigh what their values do together. */
  lemma SizeOfOneKey(tc: TextCodec, k: Key, values: seq<Json>)
    ensures AdditionsSize(tc, map[k := values]) == Sum(Map((v: Json) => ValueByteSize(tc, v), values))
  {
    var sizes := Sizes(tc, map[k := values]);
    assert sizes.Keys == {k};
    TotalRemove(sizes, k);
    assert (sizes - {k}).Keys == {};
    ArraySizeIsSum(tc, values);
  }

  /** A wrapped hex text weighs half its digits, rounded up, and null what an empty text does. */
  lemma WeightOfWrappedHex(tc: TextCodec, e: Json, hex: string)
    requires e.Obj? && Descriptor(e).Some? && Field(Descriptor(e).value, "objectdata") == Some(Str(hex))
    ensures |hex| <= 2 * ValueByteSize(tc, e) <= |hex| + 1
    ensures ValueByteSize(tc, Null) == tc.utf8Length(tc.stringify(Str("")))
  {
  }

  /** A value weighs its payload: a wrapped text its bytes, hex half its digits, any other text its
      bytes, everything else its JSON. */
  lemma WeightOfValues(tc: TextCodec, name: string, text: string, v: Json)
    ensures ValueByteSize(tc, SubDD(name, text)) == tc.utf8Length(text)
    ensures IsHexText(text) ==> 2 * ValueByteSize(tc, Str(text)) == |text|
    ensures !IsHexText(text) ==> ValueByteSize(tc, Str(text)) == tc.utf8Length(text)
    ensures (v.Bool? || v.Num? || v.Arr? || (v.Obj? && Descriptor(v).None?)) ==> ValueByteSize(tc, v) == tc.utf8Length(tc.stringify(v))
  {
    MessageOfSubDD(name, text);
    assert SubDD(name, text).Obj?;
  }
}
