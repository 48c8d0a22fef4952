/** How an agent's services are written to and read back from its identity. */
module ServiceCodec {
  import opened Prelude
  import opened Vdxf

  const MAX_SERVICES := 100
  const MAX_PRICINGS := 50
  const MAX_PRICE: real := 1000000000.0
  const MAX_NUMBER: real := 1000000000000.0

  /** The runtime's finite numbers, and how they are printed and read; reading gives None unless the
      number is finite. */
  datatype NumberCodec = NumberCodec(isNumber: real -> bool, text: real -> string, number: Json -> Option<real>)

  /** Its numbers, and only those, are known to survive printing. */
  ghost predicate NumbersRoundTrip(nc: NumberCodec) {
    && (forall x: real {:trigger nc.text(x)} :: nc.isNumber(x) ==> nc.number(Str(nc.text(x))) == Some(x))
    && (forall n: int {:trigger Num(n)} :: nc.isNumber(n as real) ==> nc.number(Num(n)) == Some(n as real))
  }

  /** A service to publish; an optional text or list that is not given is empty. The last four fields
      are those of an API endpoint. */
  datatype Service = Service(
    name: string, status: string, description: string, category: string,
    price: Option<real>, currency: string, accepted: seq<(string, real)>,
    turnaround: string, paymentTerms: string, privateMode: Option<bool>, sovguard: Option<bool>,
    resolutionWindow: Option<int>, refundPolicy: Option<seq<(string, Json)>>, costBreakdown: Option<seq<(string, Json)>>,
    serviceType: string, endpointUrl: string, modelPricing: seq<Json>, rateLimits: Option<seq<(string, Json)>>)

  /** A service as read; what stands in its text fields is whatever was published. */
  datatype Decoded = Decoded(
    name: Json, status: Option<Json>, description: Option<Json>, category: Option<Json>,
    price: Option<real>, currency: Option<Json>, accepted: Option<seq<(Option<Json>, Option<real>)>>,
    turnaround: Option<Json>, paymentTerms: Option<Json>, privateMode: Option<bool>, sovguard: Option<bool>,
    resolutionWindow: Option<real>, refundPolicy: Option<Json>, costBreakdown: Option<Json>,
    serviceType: Option<Json>, endpointUrl: Option<Json>, modelPricing: Option<Json>, rateLimits: Option<Json>)

  /** A service's amounts and its window are numbers of the runtime. */
  predicate HasNumbers(nc: NumberCodec, s: Service) {
    && (s.price.Some? ==> nc.isNumber(s.price.value))
    && (forall i :: 0 <= i < |s.accepted| ==> nc.isNumber(s.accepted[i].1))
    && (s.resolutionWindow.Some? ==> nc.isNumber(s.resolutionWindow.value as real))
  }

  predicate AllHaveNumbers(nc: NumberCodec, ss: seq<Service>) { forall i :: 0 <= i < |ss| ==> HasNumbers(nc, ss[i]) }

  // ---- writing ----

  function GivenText(s: string): Option<Json> { if s == "" then None else Some(Str(s)) }

  function PriceEntry(nc: NumberCodec, currency: string, price: real): Json {
    Obj([("currency", Str(currency)), ("amount", Str(nc.text(price)))])
  }

  /** The price in the service's own currency first, if it has both, then the accepted currencies. */
  function Prices(s: Service): seq<(string, real)> {
    (if s.price.Some? && s.currency != "" then [(s.currency, s.price.value)] else []) + s.accepted
  }

  function Pricing(nc: NumberCodec, s: Service): seq<Json> {
    Map((p: (string, real)) => PriceEntry(nc, p.0, p.1), Prices(s))
  }

  function GivenBool(b: Option<bool>): Option<Json> { if b.Some? then Some(Bool(b.value)) else None }

  function GivenObject(o: Option<seq<(string, Json)>>): Option<Json> { if o.Some? then Some(Obj(o.value)) else None }

  const NAMES := ["name", "status", "description", "category", "pricing", "turnaround", "paymentTerms",
                  "privateMode", "sovguard", "resolutionWindow", "refundPolicy", "costBreakdown"]

  function Values(nc: NumberCodec, s: Service): (vs: seq<Option<Json>>)
    ensures |vs| == |NAMES|
  {
    [Some(Str(s.name)), Some(Str(if s.status == "" then "active" else s.status)),
     GivenText(s.description), GivenText(s.category),
     if Prices(s) == [] then None else Some(Arr(Pricing(nc, s))),
     GivenText(s.turnaround), GivenText(s.paymentTerms), GivenBool(s.privateMode), GivenBool(s.sovguard),
     if s.resolutionWindow.Some? then Some(Num(s.resolutionWindow.value)) else None,
     GivenObject(s.refundPolicy), GivenObject(s.costBreakdown)]
  }

  /** An object of the fields that have a value. */
  function Compact(names: seq<string>, values: seq<Option<Json>>): seq<(string, Json)>
    requires |names| == |values|
  {
    if names == [] then []
    else (if values[0].Some? then [(names[0], values[0].value)] else []) + Compact(names[1..], values[1..])
  }

  function Serialize(nc: NumberCodec, s: Service): Json { Obj(Compact(NAMES, Values(nc, s))) }

  // ---- reading ----

  function SafeNumber(nc: NumberCodec, v: Option<Json>, min: real, max: real): Option<real> {
    if v.None? then None
    else
      var n := nc.number(v.value);
      if n.Some? && min <= n.value <= max then n else None
  }

  /** A field that is neither missing nor null. */
  function Present(v: Json, name: string): Option<Json> {
    match Field(v, name)
    case Some(Null) => None
    case f => f
  }

  function PriceOf(nc: NumberCodec, p: Json): Option<real> {
    SafeNumber(nc, if Present(p, "amount").Some? then Present(p, "amount") else Field(p, "price"), 0.0, MAX_PRICE)
  }

  function FlagOf(v: Json, name: string): Option<bool> {
    match Present(v, name)
    case None => None
    case Some(f) => Some(f == Bool(true) || f == Str("true"))
  }

  function ReadPricing(v: Json): seq<Json> {
    match Field(v, "pricing")
    case Some(Arr(ps)) => if |ps| > MAX_PRICINGS then ps[..MAX_PRICINGS] else ps
    case _ => []
  }

  function KnownPrices(prices: seq<(Option<Json>, Option<real>)>): seq<(Option<Json>, Option<real>)> {
    if prices == [] then []
    else (if prices[0].1.Some? then [prices[0]] else []) + KnownPrices(prices[1..])
  }

  function ReadAccepted(nc: NumberCodec, ps: seq<Json>): Option<seq<(Option<Json>, Option<real>)>> {
    if |ps| <= 1 then None
    else Some(KnownPrices(Map(p => (Field(p, "currency"), PriceOf(nc, p)), ps[1..])))
  }

  /** An object, or its JSON text; Err when the text does not parse. */
  function ReadObject(tc: TextCodec, v: Json, name: string): Result<Option<Json>, string> {
    match Field(v, name)
    case None => Ok(None)
    case Some(f) =>
      if !Truthy(f) then Ok(None)
      else if !f.Str? then Ok(Some(f))
      else match tc.parse(f.s)
           case Some(parsed) => Ok(Some(parsed))
           case None => Err("SyntaxError")
  }

  /** One element of a published array; Ok(None) is skipped, Err is an exception. */
  function ReadService(tc: TextCodec, nc: NumberCodec, v: Json): Result<Option<Decoded>, string> {
    var ps := ReadPricing(v);
    var refund, costs := ReadObject(tc, v, "refundPolicy"), ReadObject(tc, v, "costBreakdown");
    if v.Null? then Err("TypeError")
    else if Field(v, "name").None? || !Truthy(Field(v, "name").value) then Ok(None)
    else if Null in ps then Err("TypeError")
    else if refund.Err? then Err(refund.error)
    else if costs.Err? then Err(costs.error)
    else Ok(Some(Decoded(
      Field(v, "name").value, Field(v, "status"), Field(v, "description"), Field(v, "category"),
      if ps == [] then None else PriceOf(nc, ps[0]),
      if ps == [] then None else Field(ps[0], "currency"),
      ReadAccepted(nc, ps),
      Field(v, "turnaround"), Field(v, "paymentTerms"), FlagOf(v, "privateMode"), FlagOf(v, "sovguard"),
      SafeNumber(nc, Present(v, "resolutionWindow"), 0.0, MAX_NUMBER),
      refund.value, costs.value, None, None, None, None)))
  }

  /** The values read so far, until the first exception. */
  function Collect<T>(outcomes: seq<Result<Option<T>, string>>): Result<seq<T>, string> {
    if outcomes == [] then Ok([])
    else
      var before, one := Collect(outcomes[..|outcomes| - 1]), outcomes[|outcomes| - 1];
      if before.Err? then before
      else if one.Err? then Err(one.error)
      else Ok(before.value + if one.value.Some? then [one.value.value] else [])
  }

  function Reads(tc: TextCodec, nc: NumberCodec, vs: seq<Json>): (r: seq<Result<Option<Decoded>, string>>)
    ensures |r| == |vs| && forall i :: 0 <= i < |vs| ==> r[i] == ReadService(tc, nc, vs[i])
  {
    Map(v => ReadService(tc, nc, v), vs)
  }

  /** The published array, as JSON text or as it stands, cut to MAX_SERVICES elements. */
  function Published(tc: TextCodec, raw: Json): Result<seq<Json>, string> {
    match (if raw.Str? then tc.parse(raw.s) else Some(raw))
    case None => Err("SyntaxError")
    case Some(Arr(vs)) => Ok(if |vs| > MAX_SERVICES then vs[..MAX_SERVICES] else vs)
    case Some(_) => Ok([])
  }

  function ReadServices(tc: TextCodec, nc: NumberCodec, raw: Json): Result<seq<Decoded>, string> {
    match Published(tc, raw)
    case Err(e) => Err(e)
    case Ok(vs) => Collect(Reads(tc, nc, vs))
  }

  method DecodeElements(tc: TextCodec, nc: NumberCodec, vs: seq<Json>) returns (r: Result<seq<Decoded>, string>)
    ensures r == Collect(Reads(tc, nc, vs))
  {
    ghost var outcomes := Reads(tc, nc, vs);
    var services := [];
    for i := 0 to |vs|
      invariant Collect(outcomes[..i]) == Ok(services)
    {
      assert outcomes[..i + 1][..i] == outcomes[..i];
      var one := ReadService(tc, nc, vs[i]);
      if one.Err? {
        ErrorSticks(outcomes, i + 1);
        return Err(one.error);
      }
      assert outcomes[..i + 1][i] == one;
      services := services + if one.value.Some? then [one.value.value] else [];
    }
    assert outcomes[..|vs|] == outcomes;
    return Ok(services);
  }

  method DecodeServicesArray(tc: TextCodec, nc: NumberCodec, raw: Json) returns (r: Result<seq<Decoded>, string>)
    ensures r == ReadServices(tc, nc, raw)
  {
    var published := Published(tc, raw);
    if published.Err? { return Err(published.error); }
    r := DecodeElements(tc, nc, published.value);
  }

  lemma {:induction false} ErrorSticks<T>(outcomes: seq<Result<Option<T>, string>>, n: nat)
    requires n <= |outcomes| && Collect(outcomes[..n]).Err?
    ensures Collect(outcomes) == Collect(outcomes[..n])
  {
    if n < |outcomes| {
      assert outcomes[..|outcomes| - 1][..n] == outcomes[..n];
      ErrorSticks(outcomes[..|outcomes| - 1], n);
    } else {
      assert outcomes[..n] == outcomes;
    }
  }

  // ---- round trip ----

  lemma NamesDiffer()
    ensures Distinct(NAMES)
  {
  }

  lemma {:induction false} GetCompact(names: seq<string>, values: seq<Option<Json>>, i: nat)
    requires |names| == |values| && i < |names| && Distinct(names)
    ensures Get(Compact(names, values), names[i]) == values[i]
  {
    if i == 0 {
      if values[0].None? {
        GetAbsent(names[1..], values[1..], names[0]);
        assert Compact(names, values) == Compact(names[1..], values[1..]);
      }
    } else {
      GetCompact(names[1..], values[1..], i - 1);
      var rest := Compact(names[1..], values[1..]);
      if values[0].Some? {
        assert Compact(names, values)[1..] == rest;
      } else {
        assert Compact(names, values) == rest;
      }
    }
  }

  lemma {:induction false} GetAbsent(names: seq<string>, values: seq<Option<Json>>, name: string)
    requires |names| == |values| && name !in names
    ensures Get(Compact(names, values), name) == None
  {
    if names != [] {
      GetAbsent(names[1..], values[1..], name);
      var rest := Compact(names[1..], values[1..]);
      if values[0].Some? {
        assert Compact(names, values)[1..] == rest;
      } else {
        assert Compact(names, values) == rest;
      }
    }
  }

  lemma FieldOfSerialized(nc: NumberCodec, s: Service, i: nat)
    requires i < |NAMES|
    ensures Field(Serialize(nc, s), NAMES[i]) == Values(nc, s)[i]
  {
    NamesDiffer();
    GetCompact(NAMES, Values(nc, s), i);
  }

  lemma SerializedFields(nc: NumberCodec, s: Service)
    ensures var v := Serialize(nc, s);
      && Field(v, "name") == Some(Str(s.name))
      && Field(v, "status") == Some(Str(if s.status == "" then "active" else s.status))
      && Field(v, "description") == GivenText(s.description)
      && Field(v, "category") == GivenText(s.category)
      && Field(v, "pricing") == (if Prices(s) == [] then None else Some(Arr(Pricing(nc, s))))
      && Field(v, "turnaround") == GivenText(s.turnaround)
      && Field(v, "paymentTerms") == GivenText(s.paymentTerms)
      && Field(v, "privateMode") == GivenBool(s.privateMode)
      && Field(v, "sovguard") == GivenBool(s.sovguard)
      && Field(v, "resolutionWindow") == (if s.resolutionWindow.Some? then Some(Num(s.resolutionWindow.value)) else None)
      && Field(v, "refundPolicy") == GivenObject(s.refundPolicy)
      && Field(v, "costBreakdown") == GivenObject(s.costBreakdown)
  {
    FieldOfSerialized(nc, s, 0);
    FieldOfSerialized(nc, s, 1);
    FieldOfSerialized(nc, s, 2);
    FieldOfSerialized(nc, s, 3);
    FieldOfSerialized(nc, s, 4);
    FieldOfSerialized(nc, s, 5);
    FieldOfSerialized(nc, s, 6);
    FieldOfSerialized(nc, s, 7);
    FieldOfSerialized(nc, s, 8);
    FieldOfSerialized(nc, s, 9);
    FieldOfSerialized(nc, s, 10);
    FieldOfSerialized(nc, s, 11);
  }

  // ---- what comes back ----

  function Within(x: real, min: real, max: real): Option<real> { if min <= x <= max then Some(x) else None }

  function PriceBack(p: (string, real)): (Option<Json>, Option<real>) { (Some(Str(p.0)), Within(p.1, 0.0, MAX_PRICE)) }

  /** The prices that are read, up to MAX_PRICINGS. */
  function PricesBack(s: Service): seq<(string, real)> {
    if |Prices(s)| > MAX_PRICINGS then Prices(s)[..MAX_PRICINGS] else Prices(s)
  }

  /** A published service as it is read. */
  function ReadBack(s: Service): Option<Decoded> {
    var ps := PricesBack(s);
    if s.name == "" then None
    else Some(Decoded(
      Str(s.name), Some(Str(if s.status == "" then "active" else s.status)), GivenText(s.description), GivenText(s.category),
      if ps == [] then None else Within(ps[0].1, 0.0, MAX_PRICE),
      if ps == [] then None else Some(Str(ps[0].0)),
      if |ps| <= 1 then None else Some(KnownPrices(Map(PriceBack, ps[1..]))),
      GivenText(s.turnaround), GivenText(s.paymentTerms), s.privateMode, s.sovguard,
      if s.resolutionWindow.Some? then Within(s.resolutionWindow.value as real, 0.0, MAX_NUMBER) else None,
      GivenObject(s.refundPolicy), GivenObject(s.costBreakdown), None, None, None, None))
  }

  lemma PriceEntryReads(nc: NumberCodec, currency: string, price: real)
    requires NumbersRoundTrip(nc) && nc.isNumber(price)
    ensures var e := PriceEntry(nc, currency, price);
      e != Null && Field(e, "currency") == Some(Str(currency)) && PriceOf(nc, e) == Within(price, 0.0, MAX_PRICE)
  {
    var e := PriceEntry(nc, currency, price);
    assert |"currency"| != |"amount"|;
    assert Get(e.fields, "amount") == Get(e.fields[1..], "amount");
    assert e.fields[1..] == [("amount", Str(nc.text(price)))];
    assert Field(e, "amount") == Some(Str(nc.text(price)));
  }

  lemma PricingReads(nc: NumberCodec, s: Service)
    requires NumbersRoundTrip(nc) && HasNumbers(nc, s)
    ensures var ps := ReadPricing(Serialize(nc, s)); var given := PricesBack(s);
      && |ps| == |given| && Null !in ps
      && (forall i :: 0 <= i < |ps| ==>
            Field(ps[i], "currency") == Some(Str(given[i].0)) && PriceOf(nc, ps[i]) == Within(given[i].1, 0.0, MAX_PRICE))
  {
    SerializedFields(nc, s);
    var ps, given := ReadPricing(Serialize(nc, s)), PricesBack(s);
    assert |Pricing(nc, s)| == |Prices(s)|;
    forall i | 0 <= i < |ps|
      ensures ps[i] != Null && Field(ps[i], "currency") == Some(Str(given[i].0))
      ensures PriceOf(nc, ps[i]) == Within(given[i].1, 0.0, MAX_PRICE)
    {
      assert ps[i] == Pricing(nc, s)[i] && nc.isNumber(given[i].1);
      PriceEntryReads(nc, given[i].0, given[i].1);
    }
  }

  lemma AcceptedReads(nc: NumberCodec, s: Service)
    requires NumbersRoundTrip(nc) && HasNumbers(nc, s)
    ensures ReadAccepted(nc, ReadPricing(Serialize(nc, s))) ==
      if |PricesBack(s)| <= 1 then None else Some(KnownPrices(Map(PriceBack, PricesBack(s)[1..])))
  {
    PricingReads(nc, s);
    var ps, given := ReadPricing(Serialize(nc, s)), PricesBack(s);
    if |ps| > 1 {
      assert Map(p => (Field(p, "currency"), PriceOf(nc, p)), ps[1..]) == Map(PriceBack, given[1..]);
    }
  }

  lemma ObjectReads(tc: TextCodec, v: Json, name: string, o: Option<seq<(string, Json)>>)
    requires Field(v, name) == GivenObject(o)
    ensures ReadObject(tc, v, name) == Ok(GivenObject(o))
  {
  }

  lemma FlagReads(v: Json, name: string, flag: Option<bool>)
    requires Field(v, name) == GivenBool(flag)
    ensures FlagOf(v, name) == flag
  {
  }

  /** Every service, well-formed or not, is read back as ReadBack says and without an exception. */
  lemma ServiceReadsBack(tc: TextCodec, nc: NumberCodec, s: Service)
    requires NumbersRoundTrip(nc) && HasNumbers(nc, s)
    ensures ReadService(tc, nc, Serialize(nc, s)) == Ok(ReadBack(s))
  {
    var v := Serialize(nc, s);
    SerializedFields(nc, s);
    PricingReads(nc, s);
    AcceptedReads(nc, s);
    ObjectReads(tc, v, "refundPolicy", s.refundPolicy);
    ObjectReads(tc, v, "costBreakdown", s.costBreakdown);
    FlagReads(v, "privateMode", s.privateMode);
    FlagReads(v, "sovguard", s.sovguard);
  }

  /** The service as it was given, with the default status. */
  function Given(s: Service): Decoded {
    Decoded(Str(s.name), Some(Str(if s.status == "" then "active" else s.status)), GivenText(s.description),
            GivenText(s.category), s.price, GivenText(s.currency),
            if s.accepted == [] then None
            else Some(Map((a: (string, real)) => (Some(Str(a.0)), Some(a.1)), s.accepted)),
            GivenText(s.turnaround), GivenText(s.paymentTerms), s.privateMode, s.sovguard,
            if s.resolutionWindow.Some? then Some(s.resolutionWindow.value as real) else None,
            GivenObject(s.refundPolicy), GivenObject(s.costBreakdown),
            GivenText(s.serviceType), GivenText(s.endpointUrl),
            if s.modelPricing == [] then None else Some(Arr(s.modelPricing)), GivenObject(s.rateLimits))
  }

  /** A field is given that is never written: the type of the service or what describes an endpoint. */
  predicate HasUnwrittenFields(s: Service) {
    s.serviceType != "" || s.endpointUrl != "" || s.modelPricing != [] || s.rateLimits.Some?
  }

  /** A name; no unwritten field; a price and its currency both or neither; accepted currencies only beside
      a price and few enough; all numbers in their range. */
  predicate Faithful(s: Service) {
    && s.name != "" && !HasUnwrittenFields(s)
    && (s.price.Some? <==> s.currency != "")
    && (s.accepted != [] ==> s.price.Some? && |s.accepted| < 50)
    && (s.price.Some? ==> 0.0 <= s.price.value <= 1000000000.0)
    && (forall i :: 0 <= i < |s.accepted| ==> 0.0 <= s.accepted[i].1 <= 1000000000.0)
    && (s.resolutionWindow.Some? ==> 0.0 <= s.resolutionWindow.value as real <= 1000000000000.0)
  }

  lemma {:induction false} KnownPricesSize(prices: seq<(Option<Json>, Option<real>)>)
    ensures |KnownPrices(prices)| <= |prices|
    ensures |KnownPrices(prices)| == |prices| ==> KnownPrices(prices) == prices
    ensures |KnownPrices(prices)| == |prices| <==> forall i :: 0 <= i < |prices| ==> prices[i].1.Some?
  {
    if prices != [] {
      KnownPricesSize(prices[1..]);
      assert prices == [prices[0]] + prices[1..];
      assert forall i :: 0 < i < |prices| ==> prices[i] == prices[1..][i - 1];
    }
  }

  function AcceptedBack(s: Service): Option<seq<(Option<Json>, Option<real>)>> {
    var ps := PricesBack(s);
    if |ps| <= 1 then None else Some(KnownPrices(Map(PriceBack, ps[1..])))
  }

  /** Without a price of its own, the first accepted currency is taken for it and missing after. */
  lemma AcceptedAloneAreLost(s: Service)
    requires !(s.price.Some? && s.currency != "") && s.accepted != []
    ensures AcceptedBack(s) != Given(s).accepted
  {
    assert Prices(s) == s.accepted;
    AcceptedBackIsShorter(s);
    assert |Given(s).accepted.value| == |s.accepted|;
  }

  lemma AcceptedBackIsShorter(s: Service)
    requires Prices(s) != []
    ensures AcceptedBack(s).Some? ==> |AcceptedBack(s).value| < |Prices(s)|
  {
    var ps := PricesBack(s);
    if |ps| > 1 { KnownPricesSize(Map(PriceBack, ps[1..])); }
  }

  lemma AcceptedComeBack(s: Service)
    requires s.price.Some? && s.currency != ""
    ensures AcceptedBack(s) == Given(s).accepted <==>
      (|s.accepted| < MAX_PRICINGS && forall i :: 0 <= i < |s.accepted| ==> 0.0 <= s.accepted[i].1 <= MAX_PRICE)
  {
    assert Prices(s) == [(s.currency, s.price.value)] + s.accepted;
    var ps := PricesBack(s);
    if |s.accepted| < MAX_PRICINGS {
      assert ps[1..] == s.accepted;
      var read := Map(PriceBack, s.accepted);
      KnownPricesSize(read);
      if s.accepted != [] && forall i :: 0 <= i < |s.accepted| ==> 0.0 <= s.accepted[i].1 <= MAX_PRICE {
        assert KnownPrices(read) == Given(s).accepted.value;
      }
    } else {
      KnownPricesSize(Map(PriceBack, ps[1..]));
    }
  }

  /** One service survives publication exactly if it is faithful. */
  lemma ServiceRoundTrip(tc: TextCodec, nc: NumberCodec, s: Service)
    requires NumbersRoundTrip(nc) && HasNumbers(nc, s)
    ensures ReadService(tc, nc, Serialize(nc, s)) == Ok(Some(Given(s))) <==> Faithful(s)
  {
    ServiceReadsBack(tc, nc, s);
    BackIffFaithful(s);
  }

  lemma BackIffFaithful(s: Service)
    ensures ReadBack(s) == Some(Given(s)) <==> Faithful(s)
  {
    assert s.name != "" ==> ReadBack(s).value.accepted == AcceptedBack(s);
    if s.price.Some? && s.currency != "" {
      AcceptedComeBack(s);
      assert PricesBack(s)[0] == (s.currency, s.price.value);
    } else if s.accepted == [] {
      assert Prices(s) == [];
    } else {
      AcceptedAloneAreLost(s);
    }
  }

  // ---- arrays ----

  function SerializeAll(nc: NumberCodec, ss: seq<Service>): Json { Arr(Map(s => Serialize(nc, s), ss)) }

  function Somes<T>(os: seq<Option<T>>): seq<T> {
    if os == [] then []
    else Somes(os[..|os| - 1]) + if os[|os| - 1].Some? then [os[|os| - 1].value] else []
  }

  lemma {:induction false} CollectOks<T>(outcomes: seq<Result<Option<T>, string>>, os: seq<Option<T>>)
    requires |outcomes| == |os| && forall i :: 0 <= i < |os| ==> outcomes[i] == Ok(os[i])
    ensures Collect(outcomes) == Ok(Somes(os))
  {
    if os != [] { CollectOks(outcomes[..|os| - 1], os[..|os| - 1]); }
  }

  lemma {:induction false} SomesMatch<T>(os: seq<Option<T>>, given: seq<T>)
    requires |os| == |given|
    ensures |Somes(os)| <= |os|
    ensures Somes(os) == given <==> forall i :: 0 <= i < |os| ==> os[i] == Some(given[i])
  {
    if os != [] {
      var n := |os| - 1;
      SomesMatch(os[..n], given[..n]);
      assert given == given[..n] + [given[n]];
      if Somes(os) == given {
        assert |Somes(os)| == n + 1;
        assert Somes(os)[n] == given[n] && Somes(os)[..n] == Somes(os[..n]);
      }
    }
  }

  /** What is read of any services published as JSON text. */
  lemma ServicesReadBack(tc: TextCodec, nc: NumberCodec, ss: seq<Service>, n: nat)
    requires NumbersRoundTrip(nc) && AllHaveNumbers(nc, ss) && PrintsBack(tc, SerializeAll(nc, ss))
    requires n == if |ss| <= MAX_SERVICES then |ss| else MAX_SERVICES
    ensures ReadServices(tc, nc, Str(tc.stringify(SerializeAll(nc, ss)))) == Ok(Somes(Map(ReadBack, ss[..n])))
  {
    var all := SerializeAll(nc, ss);
    assert tc.parse(tc.stringify(all)) == Some(all);
    var vs := Published(tc, Str(tc.stringify(all))).value;
    assert vs == all.elems[..n];
    var outcomes := Reads(tc, nc, vs);
    forall i | 0 <= i < n ensures outcomes[i] == Ok(Map(ReadBack, ss[..n])[i]) { ServiceReadsBack(tc, nc, ss[i]); }
    CollectOks(outcomes, Map(ReadBack, ss[..n]));
  }

  /** Services published as JSON text come back as they were given exactly if there are at most 100
      and each is faithful. */
  lemma ServicesRoundTrip(tc: TextCodec, nc: NumberCodec, ss: seq<Service>)
    requires NumbersRoundTrip(nc) && AllHaveNumbers(nc, ss) && PrintsBack(tc, SerializeAll(nc, ss))
    ensures ReadServices(tc, nc, Str(tc.stringify(SerializeAll(nc, ss)))) == Ok(Map(Given, ss)) <==>
      (|ss| <= 100 && forall i :: 0 <= i < |ss| ==> Faithful(ss[i]))
  {
    var n := if |ss| <= MAX_SERVICES then |ss| else MAX_SERVICES;
    ServicesReadBack(tc, nc, ss, n);
    BacksMatch(ss, n);
  }

  lemma BacksMatch(ss: seq<Service>, n: nat)
    requires n <= |ss|
    ensures Somes(Map(ReadBack, ss[..n])) == Map(Given, ss) <==> (n == |ss| && forall i :: 0 <= i < |ss| ==> Faithful(ss[i]))
  {
    var os := Map(ReadBack, ss[..n]);
    SomesMatch(os, Map(Given, ss[..n]));
    if n == |ss| {
      assert ss[..n] == ss;
      forall i | 0 <= i < n ensures os[i] == Some(Map(Given, ss)[i]) <==> Faithful(ss[i]) { BackIffFaithful(ss[i]); }
    }
  }

  /** The unwritten fields are lost: a service reads as if they were not given, so that it does not
      come back as it was. */
  lemma EndpointFieldsAreLost(tc: TextCodec, nc: NumberCodec, s: Service)
    requires NumbersRoundTrip(nc) && HasNumbers(nc, s)
    ensures var plain := s.(serviceType := "", endpointUrl := "", modelPricing := [], rateLimits := None);
      ReadService(tc, nc, Serialize(nc, s)) == ReadService(tc, nc, Serialize(nc, plain))
    ensures HasUnwrittenFields(s) ==> ReadService(tc, nc, Serialize(nc, s)) != Ok(Some(Given(s)))
  {
    var plain := s.(serviceType := "", endpointUrl := "", modelPricing := [], rateLimits := None);
    assert Prices(plain) == Prices(s);
    ServiceReadsBack(tc, nc, s);
    ServiceReadsBack(tc, nc, plain);
    ServiceRoundTrip(tc, nc, s);
  }

  /** The least service of this kind. */
  lemma EndpointIsLost(tc: TextCodec, nc: NumberCodec, name: string, url: string)
    requires NumbersRoundTrip(nc) && name != "" && url != ""
    ensures var s := Service(name, "", "", "", None, "", [], "", "", None, None, None, None, None, "api-endpoint", url, [], None);
      var r := ReadService(tc, nc, Serialize(nc, s));
      r.Ok? && r.value.Some? && r.value.value.name == Str(name)
      && r.value.value.serviceType == None && r.value.value.endpointUrl == None
  {
    var s := Service(name, "", "", "", None, "", [], "", "", None, None, None, None, None, "api-endpoint", url, [], None);
    ServiceReadsBack(tc, nc, s);
  }

  /** A service with accepted currencies but no price of its own reads as priced in the first one. */
  lemma AcceptedTakenForPrice(tc: TextCodec, nc: NumberCodec, s: Service, currency: string, price: real)
    requires NumbersRoundTrip(nc) && HasNumbers(nc, s) && 0.0 <= price <= MAX_PRICE
    requires s.name != "" && s.price == None && s.currency == "" && s.accepted == [(currency, price)]
    ensures var r := ReadService(tc, nc, Serialize(nc, s));
      r.Ok? && r.value.Some? && r.value.value.price == Some(price) && r.value.value.currency == Some(Str(currency))
      && r.value.value.accepted == None
  {
    ServiceReadsBack(tc, nc, s);
    assert Prices(s) == s.accepted;
  }
}
