/** When an identity update can be built and what it then holds, apart from how it is built. */
module UpdateLaws {
  import opened Prelude
  import opened Vdxf
  import opened VdxfGate
  import opened Payment
  import opened PaymentLaws
  import opened IdentityUpdate

  /** content is the existing map without removal instructions, with the written keys replaced. */
  ghost predicate Updates(existing: ContentMap, additions: Additions, content: Additions) {
    && (forall k :: k in content <==> k in additions || (k in existing && k != MultimapRemove))
    && (forall k :: k in content ==>
          content[k] == if k in additions then additions[k] else if existing[k].Arr? then existing[k].elems else [existing[k]])
  }

  lemma UpdatesIsUpdatedMap(existing: ContentMap, additions: Additions, content: Additions)
    requires Updates(existing, additions, content)
    ensures content == UpdatedMap(existing, additions, false)
  {
    var built := UpdatedMap(existing, additions, false);
    assert content.Keys == built.Keys;
  }

  /** A coin the agent may fund an update with: worth something, and its own or of no address. */
  predicate IsOwn(u: Utxo, agentAddress: string) { u.satoshis > 0 && (u.address == "" || u.address == agentAddress) }

  /** `own` holds the coins the agent may use, each as often as it is listed, and no other. */
  ghost predicate OwnCoins(utxos: seq<Utxo>, agentAddress: string, own: seq<Utxo>) {
    forall u :: multiset(own)[u] == if IsOwn(u, agentAddress) then multiset(utxos)[u] else 0
  }

  lemma {:induction false} SpendableIsOwn(utxos: seq<Utxo>, agentAddress: string)
    ensures OwnCoins(utxos, agentAddress, Spendable(utxos, agentAddress))
  {
    if utxos != [] {
      var before, u := utxos[..|utxos| - 1], utxos[|utxos| - 1];
      SpendableIsOwn(before, agentAddress);
      assert utxos == before + [u];
    }
  }

  lemma OwnCoinsAreUnique(utxos: seq<Utxo>, agentAddress: string, own: seq<Utxo>)
    requires OwnCoins(utxos, agentAddress, own)
    ensures multiset(own) == multiset(Spendable(utxos, agentAddress))
    ensures Value(own) == Value(Spendable(utxos, agentAddress)) && (own == [] <==> Spendable(utxos, agentAddress) == [])
  {
    SpendableIsOwn(utxos, agentAddress);
    var spendable := Spendable(utxos, agentAddress);
    forall u ensures multiset(own)[u] == multiset(spendable)[u] {}
    assert multiset(own) == multiset(spendable);
    SameMultisetValue(own, spendable);
    assert |multiset(own)| == |own| && |multiset(spendable)| == |spendable|;
  }

  lemma OwnCoinsArePositive(utxos: seq<Utxo>, agentAddress: string, own: seq<Utxo>)
    requires OwnCoins(utxos, agentAddress, own)
    ensures forall i :: 0 <= i < |own| ==> own[i].satoshis > 0
  {
    forall i | 0 <= i < |own| ensures own[i].satoshis > 0 { assert own[i] in multiset(own); }
  }

  /** With positive coins, some of them reach the fee exactly if all of them do. */
  lemma AffordableByAll(own: seq<Utxo>, target: int)
    requires forall i :: 0 <= i < |own| ==> own[i].satoshis > 0
    requires own != []
    ensures Affordable(own, target) <==> Value(own) >= target
  {
    if Value(own) >= target { assert multiset(own) <= multiset(own); }
    SelectionFacts(own);
    var s := Descending(own);
    forall i | 0 <= i < |s| ensures s[i].satoshis >= 0 { assert s[i] in multiset(own); }
    forall part: seq<Utxo> | multiset(part) <= multiset(own) ensures Value(part) <= Value(own) { WholeIsRichest(s, part); }
  }

  /** The update pays exactly its fee with own coins, and returns the rest if there is any. */
  ghost predicate FundedBy(r: Result<UpdateTx, UpdateError>, content: Additions, own: seq<Utxo>, fee: int) {
    && r.Ok? && r.value.content == content && multiset(r.value.inputs) <= multiset(own) && Value(r.value.inputs) >= fee
    && r.value.change == (if Value(r.value.inputs) > fee then Some(Value(r.value.inputs) - fee) else None)
  }

  /** Why an update that serializes is refused, the checks in their order: the key is no primary
      address, they cannot meet the minimum, or there are no own coins or not enough. */
  ghost function SigningRefusal(agentAddress: string, id: IdentityData, own: seq<Utxo>, fee: int): Option<UpdateError> {
    if forall i :: 0 <= i < |id.primaryAddresses| ==> id.primaryAddresses[i] != agentAddress then Some(KeyNotPrimary)
    else if id.minimumSignatures.Some? && (id.minimumSignatures.value < 1 || id.minimumSignatures.value > |id.primaryAddresses|)
      then Some(ImplausibleThreshold)
    else if |own| == 0 then Some(NoSpendableUtxos)
    else if Value(own) < fee then Some(FeeShortfall(Value(own)))
    else None
  }

  /** Why an update is refused, the checks in their order; None if it can be built. */
  ghost function Refusal(tc: TextCodec, serializable: Additions -> bool, agentAddress: string, id: IdentityData,
                         utxos: seq<Utxo>, additions: Additions, fee: int, content: Additions, own: seq<Utxo>): Option<UpdateError>
  {
    if !id.hasPrevOutput then Some(MissingPrevOutput)
    else if |utxos| == 0 then Some(NoUtxos)
    else if exists k, v :: k in additions && v in additions[k] && ValueByteSize(tc, v) > 5000 then Some(ValueTooLarge)
    else if !serializable(content) then Some(Unserializable)
    else SigningRefusal(agentAddress, id, own, fee)
  }

  lemma SelectedFunds(content: Additions, spendable: seq<Utxo>, own: seq<Utxo>, fee: int)
    requires multiset(spendable) == multiset(own) && Funded(content, spendable, fee).Ok?
    ensures FundedBy(Funded(content, spendable, fee), content, own, fee)
  {
    SelectedAreOffered(spendable, fee);
  }

  lemma OwnCoinsReach(utxos: seq<Utxo>, agentAddress: string, own: seq<Utxo>, fee: int)
    requires OwnCoins(utxos, agentAddress, own) && own != []
    ensures var r := Select(Spendable(utxos, agentAddress), fee);
      if Value(own) < fee then r == Err(Value(own)) else r.Ok?
  {
    OwnCoinsAreUnique(utxos, agentAddress, own);
    SpendableIsOwn(utxos, agentAddress);
    OwnCoinsArePositive(utxos, agentAddress, Spendable(utxos, agentAddress));
    SelectionExactly(Spendable(utxos, agentAddress), fee);
    AffordableByAll(Spendable(utxos, agentAddress), fee);
  }

  lemma FundedExactly(content: Additions, utxos: seq<Utxo>, agentAddress: string, own: seq<Utxo>, fee: int)
    requires OwnCoins(utxos, agentAddress, own)
    ensures var r := Funded(content, Spendable(utxos, agentAddress), fee);
      if |own| == 0 then r == Err(NoSpendableUtxos)
      else if Value(own) < fee then r == Err(FeeShortfall(Value(own)))
      else FundedBy(r, content, own, fee)
  {
    OwnCoinsAreUnique(utxos, agentAddress, own);
    if own != [] {
      OwnCoinsReach(utxos, agentAddress, own, fee);
      if Value(own) >= fee { SelectedFunds(content, Spendable(utxos, agentAddress), own, fee); }
    }
  }

  lemma SigningExactly(content: Additions, agentAddress: string, id: IdentityData, utxos: seq<Utxo>, own: seq<Utxo>, fee: int)
    requires OwnCoins(utxos, agentAddress, own)
    ensures var r := SignedUpdate(agentAddress, id, utxos, content, fee);
      match SigningRefusal(agentAddress, id, own, fee)
      case Some(e) => r == Err(e)
      case None => FundedBy(r, content, own, fee)
  {
    FundedExactly(content, utxos, agentAddress, own, fee);
    assert (forall i :: 0 <= i < |id.primaryAddresses| ==> id.primaryAddresses[i] != agentAddress) <==> agentAddress !in id.primaryAddresses;
  }

  lemma SizesExactly(tc: TextCodec, additions: Additions)
    ensures ValueSizesOk(tc, additions) <==>
      !exists k, v :: k in additions && v in additions[k] && ValueByteSize(tc, v) > 5000
  {
  }

  /** An update is built exactly if none of the refusals applies, and the error is the first that
      does: a previous output and coins, values within the limit, content that serializes, a key among
      the primary addresses, a minimum they can meet, and own coins that reach the fee. It holds the
      updated content, spends own coins as offered and leaves what they exceed the fee by as change. */
  lemma UpdateExactly(tc: TextCodec, serializable: Additions -> bool, agentAddress: string, id: IdentityData,
                      utxos: seq<Utxo>, additions: Additions, fee: int, content: Additions, own: seq<Utxo>)
    requires Updates(id.contentmultimap, additions, content) && OwnCoins(utxos, agentAddress, own)
    ensures var r := UpdateTxFor(tc, serializable, agentAddress, id, utxos, additions, fee);
      match Refusal(tc, serializable, agentAddress, id, utxos, additions, fee, content, own)
      case Some(e) => r == Err(e)
      case None => FundedBy(r, content, own, fee)
  {
    UpdatesIsUpdatedMap(id.contentmultimap, additions, content);
    SizesExactly(tc, additions);
    SigningExactly(content, agentAddress, id, utxos, own, fee);
  }

  /** Clearing drops what was there: the content is what is written, and nothing else. */
  lemma ClearingDropsAll(existing: ContentMap, additions: Additions)
    ensures UpdatedMap(existing, additions, true) == additions
  {
  }
}
