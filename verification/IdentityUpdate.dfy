/** The contentmultimap and the funding of one identity update. */
module IdentityUpdate {
  import opened Prelude
  import opened Sorting
  import opened Vdxf
  import opened VdxfGate
  import opened Payment

  // ---- contentmultimap: copy forward, replace, lay out ----

  /** Existing keys are carried forward except removal instructions; written keys replace. */
  function UpdatedMap(existing: ContentMap, additions: Additions, clear: bool): Additions {
    (if clear then map[] else map k | k in existing && k != MultimapRemove :: AsArray(existing[k])) + additions
  }

  /** The content map the platform serves once an update is on-chain. */
  function Stored(content: Additions): ContentMap {
    map k | k in content :: Arr(content[k])
  }

  function Apply(existing: ContentMap, additions: Additions): ContentMap {
    Stored(UpdatedMap(existing, additions, false))
  }

  type Layout = seq<(Key, seq<Json>)>

  ghost predicate Injective(hash160: Key -> int) {
    forall a, b {:trigger hash160(a), hash160(b)} :: hash160(a) == hash160(b) ==> a == b
  }

  /** The order the daemon demands. */
  ghost predicate Canonical(hash160: Key -> int, layout: Layout) {
    forall i, j :: 0 <= i < j < |layout| ==> hash160(layout[i].0) < hash160(layout[j].0)
  }

  /** The layout holds each key of m once, with its values, and nothing else. */
  ghost predicate Denotes(layout: Layout, m: Additions) {
    && (forall i, j :: 0 <= i < j < |layout| ==> layout[i].0 != layout[j].0)
    && (forall i :: 0 <= i < |layout| ==> layout[i].0 in m && layout[i].1 == m[layout[i].0])
    && (forall k :: k in m ==> exists i :: 0 <= i < |layout| && layout[i].0 == k)
  }

  /** Lists a key set in some insertion order. */
  method KeyList(s: set<Key>) returns (keys: seq<Key>)
    ensures Distinct(keys) && Elements(keys) == s
  {
    keys := [];
    var rest := s;
    while rest != {}
      invariant rest <= s && Distinct(keys) && Elements(keys) == s - rest
      decreases rest
    {
      var k :| k in rest;
      assert Elements(keys + [k]) == Elements(keys) + {k};
      keys, rest := keys + [k], rest - {k};
    }
  }

  /** The contentmultimap part of buildIdentityUpdateTx, whatever order the keys come in. */
  method BuildContentMultimap(hash160: Key -> int, existing: ContentMap, additions: Additions, clear: bool)
    returns (sorted: Layout)
    requires Injective(hash160)
    ensures Canonical(hash160, sorted) && Denotes(sorted, UpdatedMap(existing, additions, clear))
  {
    var current: Additions := map[];
    if !clear { current := CopyForward(existing); }
    current := Replace(current, additions);
    sorted := LayOut(hash160, current);
  }

  method CopyForward(existing: ContentMap) returns (current: Additions)
    ensures current == UpdatedMap(existing, map[], false)
  {
    current := map[];
    var rest := existing.Keys;
    while rest != {}
      invariant rest <= existing.Keys
      invariant current == map k | k in existing && k !in rest && k != MultimapRemove :: AsArray(existing[k])
      decreases rest
    {
      var key :| key in rest;
      rest := rest - {key};
      if key == MultimapRemove { continue; }
      current := current[key := AsArray(existing[key])];
    }
  }

  method Replace(carried: Additions, additions: Additions) returns (current: Additions)
    ensures current == carried + additions
  {
    current := carried;
    var rest := additions.Keys;
    while rest != {}
      invariant rest <= additions.Keys
      invariant current == carried + map k | k in additions && k !in rest :: additions[k]
      decreases rest
    {
      var key :| key in rest;
      rest := rest - {key};
      current := current[key := additions[key]];
    }
    assert (map k | k in additions && k !in rest :: additions[k]) == additions;
  }

  method LayOut(hash160: Key -> int, content: Additions) returns (sorted: Layout)
    requires Injective(hash160)
    ensures Canonical(hash160, sorted) && Denotes(sorted, content)
  {
    var inserted := KeyList(content.Keys);
    var keys := Sort((a: Key, b: Key) => hash160(a) <= hash160(b), inserted);
    SortedKeys(hash160, inserted, keys);
    sorted := [];
    for i := 0 to |keys|
      invariant |sorted| == i && forall j :: 0 <= j < i ==> keys[j] in content && sorted[j] == (keys[j], content[keys[j]])
    {
      assert keys[i] in Elements(inserted);
      sorted := sorted + [(keys[i], content[keys[i]])];
    }
    forall k | k in content ensures exists i :: 0 <= i < |sorted| && sorted[i].0 == k {
      assert k in Elements(inserted);
      var i :| 0 <= i < |keys| && keys[i] == k;
      assert sorted[i].0 == k;
    }
  }

  lemma SortedKeys(hash160: Key -> int, inserted: seq<Key>, keys: seq<Key>)
    requires Injective(hash160) && Distinct(inserted)
    requires keys == Sort((a: Key, b: Key) => hash160(a) <= hash160(b), inserted)
    ensures forall i, j :: 0 <= i < j < |keys| ==> hash160(keys[i]) < hash160(keys[j])
    ensures forall k :: k in keys <==> k in inserted
  {
    var leq := (a: Key, b: Key) => hash160(a) <= hash160(b);
    SortCorrect(leq, inserted);
    SameMembers(leq, inserted);
    forall i, j | 0 <= i < j < |keys| ensures hash160(keys[i]) < hash160(keys[j]) {
      assert leq(keys[i], keys[j]);
      if keys[i] == keys[j] {
        TwiceInMultiset(keys, i, j);
        DistinctMultiplicity(inserted, keys[i]);
      }
    }
  }

  lemma LastKey(hash160: Key -> int, a: Layout, m: Additions, k: Key)
    requires Canonical(hash160, a) && Denotes(a, m) && k in m
    ensures a != [] && hash160(k) <= hash160(a[|a| - 1].0)
  {
    var i :| 0 <= i < |a| && a[i].0 == k;
  }

  /** Equal maps have one canonical layout, so insertion order never reaches the chain. */
  lemma {:induction false} LayoutIsUnique(hash160: Key -> int, a: Layout, b: Layout, m: Additions)
    requires Injective(hash160) && Canonical(hash160, a) && Canonical(hash160, b) && Denotes(a, m) && Denotes(b, m)
    ensures a == b
    decreases |a|
  {
    if a == [] {
      if b != [] { SameLast(hash160, b, a, m); }
    } else {
      SameLast(hash160, a, b, m);
      var restA := DropLast(hash160, a, m);
      var restB := DropLast(hash160, b, m);
      LayoutIsUnique(hash160, restA, restB, m - {a[|a| - 1].0});
    }
  }

  lemma SameLast(hash160: Key -> int, a: Layout, b: Layout, m: Additions)
    requires Injective(hash160) && Canonical(hash160, a) && Canonical(hash160, b) && Denotes(a, m) && Denotes(b, m)
    requires a != []
    ensures b != [] && a[|a| - 1] == b[|b| - 1]
  {
    LastKey(hash160, b, m, a[|a| - 1].0);
    LastKey(hash160, a, m, b[|b| - 1].0);
  }

  lemma DropLast(hash160: Key -> int, a: Layout, m: Additions) returns (rest: Layout)
    requires Canonical(hash160, a) && Denotes(a, m) && a != []
    ensures a == rest + [a[|a| - 1]]
    ensures Canonical(hash160, rest) && Denotes(rest, m - {a[|a| - 1].0})
  {
    rest := a[..|a| - 1];
    assert a == rest + [a[|a| - 1]];
    FrontIsCanonical(hash160, rest, a[|a| - 1]);
    FrontDenotes(rest, a[|a| - 1], m);
  }

  lemma FrontIsCanonical(hash160: Key -> int, front: Layout, last: (Key, seq<Json>))
    requires Canonical(hash160, front + [last])
    ensures Canonical(hash160, front)
  {
    var a := front + [last];
    forall i, j | 0 <= i < j < |front| ensures hash160(front[i].0) < hash160(front[j].0) { assert a[i] == front[i] && a[j] == front[j]; }
  }

  lemma FrontDenotes(front: Layout, last: (Key, seq<Json>), m: Additions)
    requires Denotes(front + [last], m)
    ensures Denotes(front, m - {last.0})
  {
    var a, n := front + [last], |front|;
    forall i | 0 <= i < n ensures front[i].0 in m - {last.0} && front[i].1 == m[front[i].0] {
      assert a[i] == front[i] && a[i].0 != a[n].0;
    }
    forall k | k in m - {last.0} ensures exists i :: 0 <= i < n && front[i].0 == k {
      var i :| 0 <= i < |a| && a[i].0 == k;
      assert front[i].0 == k;
    }
    forall i, j | 0 <= i < j < n ensures front[i].0 != front[j].0 { assert a[i] == front[i] && a[j] == front[j]; }
  }

  /** Every key of the identity that is not written keeps its values; only a removal
      instruction is dropped. */
  lemma UpdateFrame(existing: ContentMap, additions: Additions, k: Key)
    ensures k in additions ==> k in Apply(existing, additions) && Apply(existing, additions)[k] == Arr(additions[k])
    ensures k !in additions ==> (k in Apply(existing, additions) <==> k in existing && k != MultimapRemove)
    ensures k !in additions && k in existing && k != MultimapRemove ==>
      Apply(existing, additions)[k] == Arr(AsArray(existing[k]))
  {}

  // ---- the whole builder ----

  datatype IdentityData = IdentityData(
    hasPrevOutput: bool,
    contentmultimap: ContentMap,
    primaryAddresses: seq<string>,
    minimumSignatures: Option<int>)

  datatype UpdateError =
    | MissingPrevOutput | NoUtxos | ValueTooLarge | Unserializable
    | KeyNotPrimary | ImplausibleThreshold | NoSpendableUtxos | FeeShortfall(have: int)

  /** The signed update: its content, the coins that fund it and the change they leave. */
  datatype UpdateTx = UpdateTx(content: Additions, inputs: seq<Utxo>, change: Option<int>)

  function Spendable(utxos: seq<Utxo>, agentAddress: string): seq<Utxo> {
    if utxos == [] then []
    else
      var u := utxos[|utxos| - 1];
      Spendable(utxos[..|utxos| - 1], agentAddress)
      + if u.satoshis > 0 && (u.address == "" || u.address == agentAddress) then [u] else []
  }

  /** buildIdentityUpdateTx, in the order of its checks. The identity serializer is foreign. */
  function UpdateTxFor(tc: TextCodec, serializable: Additions -> bool, agentAddress: string,
                       id: IdentityData, utxos: seq<Utxo>, additions: Additions, fee: int)
    : Result<UpdateTx, UpdateError>
  {
    var content := UpdatedMap(id.contentmultimap, additions, false);
    if !id.hasPrevOutput then Err(MissingPrevOutput)
    else if utxos == [] then Err(NoUtxos)
    else if !ValueSizesOk(tc, additions) then Err(ValueTooLarge)
    else if !serializable(content) then Err(Unserializable)
    else SignedUpdate(agentAddress, id, utxos, content, fee)
  }

  /** The part after serialization: who signs, and with which coins. */
  function SignedUpdate(agentAddress: string, id: IdentityData, utxos: seq<Utxo>, content: Additions, fee: int)
    : Result<UpdateTx, UpdateError>
  {
    if agentAddress !in id.primaryAddresses then Err(KeyNotPrimary)
    else if !PlausibleThreshold(id) then Err(ImplausibleThreshold)
    else Funded(content, Spendable(utxos, agentAddress), fee)
  }

  predicate PlausibleThreshold(id: IdentityData) {
    id.minimumSignatures.Some? ==> 1 <= id.minimumSignatures.value <= |id.primaryAddresses|
  }

  function Funded(content: Additions, own: seq<Utxo>, fee: int): Result<UpdateTx, UpdateError> {
    if own == [] then Err(NoSpendableUtxos)
    else
      match Select(own, fee)
      case Err(have) => Err(FeeShortfall(have))
      case Ok(picked) =>
        var change := Value(picked) - fee;
        Ok(UpdateTx(content, picked, if change > 0 then Some(change) else None))
  }

  /** buildIdentityUpdateTx: the update of the specification, its content in canonical order. */
  method BuildIdentityUpdateTx(tc: TextCodec, hash160: Key -> int, serializable: Additions -> bool, agentAddress: string,
                               id: IdentityData, utxos: seq<Utxo>, additions: Additions, fee: int)
    returns (r: Result<UpdateTx, UpdateError>, sorted: Layout)
    requires Injective(hash160)
    ensures r == UpdateTxFor(tc, serializable, agentAddress, id, utxos, additions, fee)
    ensures r.Ok? ==> Canonical(hash160, sorted) && Denotes(sorted, r.value.content)
  {
    sorted := [];
    if !id.hasPrevOutput { return Err(MissingPrevOutput), []; }
    if utxos == [] { return Err(NoUtxos), []; }
    var sizesOk := ValueSizesOk(tc, additions);
    if !sizesOk { return Err(ValueTooLarge), []; }
    sorted := BuildContentMultimap(hash160, id.contentmultimap, additions, false);
    var content := UpdatedMap(id.contentmultimap, additions, false);
    if !serializable(content) { return Err(Unserializable), []; }
    r := SignUpdate(agentAddress, id, utxos, content, fee);
    if r.Err? { sorted := []; }
  }

  method SignUpdate(agentAddress: string, id: IdentityData, utxos: seq<Utxo>, content: Additions, fee: int)
    returns (r: Result<UpdateTx, UpdateError>)
    ensures r == SignedUpdate(agentAddress, id, utxos, content, fee)
    ensures r.Ok? ==> r.value.content == content
  {
    if agentAddress !in id.primaryAddresses { return Err(KeyNotPrimary); }
    var plausible := PlausibleThreshold(id);
    if !plausible { return Err(ImplausibleThreshold); }
    var own := FilterSpendable(utxos, agentAddress);
    r := FundUpdate(content, own, fee);
  }

  /** The coins of an update and the change they leave. */
  method FundUpdate(content: Additions, own: seq<Utxo>, fee: int) returns (r: Result<UpdateTx, UpdateError>)
    ensures r == Funded(content, own, fee)
    ensures r.Ok? ==> r.value.content == content
  {
    if own == [] { return Err(NoSpendableUtxos); }
    var selected, totalInput := TakeUntil(Descending(own), fee);
    if totalInput < fee { return Err(FeeShortfall(totalInput)); }
    var change := totalInput - fee;
    return Ok(UpdateTx(content, selected, if change > 0 then Some(change) else None));
  }

  method FilterSpendable(utxos: seq<Utxo>, agentAddress: string) returns (own: seq<Utxo>)
    ensures own == Spendable(utxos, agentAddress)
  {
    own := [];
    for i := 0 to |utxos|
      invariant own == Spendable(utxos[..i], agentAddress)
    {
      assert utxos[..i + 1][..i] == utxos[..i];
      var u := utxos[i];
      if u.satoshis > 0 && (u.address == "" || u.address == agentAddress) { own := own + [u]; }
    }
    assert utxos[..|utxos|] == utxos;
  }

  /** An update pays exactly its fee and spends only the agent's own positive coins, each once
      per time it was offered. */
  lemma UpdatePaysExactlyItsFee(tc: TextCodec, serializable: Additions -> bool, agentAddress: string,
                                id: IdentityData, utxos: seq<Utxo>, additions: Additions, fee: int)
    requires UpdateTxFor(tc, serializable, agentAddress, id, utxos, additions, fee).Ok?
    ensures var tx := UpdateTxFor(tc, serializable, agentAddress, id, utxos, additions, fee).value;
      && Value(tx.inputs) == tx.change.GetOr(0) + fee
      && multiset(tx.inputs) <= multiset(utxos)
      && forall u :: u in tx.inputs ==> u.satoshis > 0 && (u.address == "" || u.address == agentAddress)
  {
    SpendableFacts(utxos, agentAddress);
    SignedUpdatePays(agentAddress, id, utxos, UpdatedMap(id.contentmultimap, additions, false), fee);
  }

  lemma SignedUpdatePays(agentAddress: string, id: IdentityData, utxos: seq<Utxo>, content: Additions, fee: int)
    requires SignedUpdate(agentAddress, id, utxos, content, fee).Ok?
    ensures var tx := SignedUpdate(agentAddress, id, utxos, content, fee).value;
      && Value(tx.inputs) == tx.change.GetOr(0) + fee
      && multiset(tx.inputs) <= multiset(Spendable(utxos, agentAddress))
      && forall u :: u in tx.inputs ==> u in Spendable(utxos, agentAddress)
  {
    SelectedAreOffered(Spendable(utxos, agentAddress), fee);
  }

  lemma {:induction false} SpendableFacts(utxos: seq<Utxo>, agentAddress: string)
    ensures multiset(Spendable(utxos, agentAddress)) <= multiset(utxos)
    ensures forall u :: u in Spendable(utxos, agentAddress) ==>
      u in utxos && u.satoshis > 0 && (u.address == "" || u.address == agentAddress)
  {
    if utxos != [] {
      SpendableFacts(utxos[..|utxos| - 1], agentAddress);
      assert utxos == utxos[..|utxos| - 1] + [utxos[|utxos| - 1]];
    }
  }

  /** Why the control build of the inbox batch is sound: when the update without additions
      fails for any reason but serialization, no update can be built at all. */
  lemma EnvironmentalFailureBlocksEveryUpdate(tc: TextCodec, serializable: Additions -> bool, agentAddress: string,
                                              id: IdentityData, utxos: seq<Utxo>, additions: Additions, fee: int)
    requires UpdateTxFor(tc, serializable, agentAddress, id, utxos, map[], fee).Err?
    requires UpdateTxFor(tc, serializable, agentAddress, id, utxos, map[], fee).error != Unserializable
    ensures UpdateTxFor(tc, serializable, agentAddress, id, utxos, additions, fee).Err?
  {
    assert ValueSizesOk(tc, map[]);
  }
}
