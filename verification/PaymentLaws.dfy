/** When a payment can be made and what it then pays, apart from how it is built. */
module PaymentLaws {
  import opened Prelude
  import opened Sorting
  import opened Payment

  /** n is the whole number of satoshis nearest to an amount in coins, halves rounded up. */
  predicate Nearest(amount: real, n: int) {
    n as real - 0.5 <= amount * SATS_PER_COIN < n as real + 0.5
  }

  lemma NearestIsRounded(amount: real, n: int)
    ensures Nearest(amount, n) <==> n == ToSatoshis(amount)
  {
  }

  /** Some of the coins, at least one where there are any, are worth the target. */
  ghost predicate Affordable(us: seq<Utxo>, target: int) {
    exists part: seq<Utxo> :: multiset(part) <= multiset(us) && (us != [] ==> part != []) && Value(part) >= target
  }

  lemma SelectedIsAffordable(us: seq<Utxo>, target: int)
    requires Select(us, target).Ok?
    ensures Affordable(us, target)
  {
    SelectedAreOffered(us, target);
    SelectionFacts(us);
    var picked := Select(us, target).value;
    assert us != [] ==> |multiset(Descending(us))| > 0;
    assert us != [] ==> picked != [];
  }

  lemma NoPrefixReaches(s: seq<Utxo>, target: int, n: nat)
    requires Value(s[..Taken(s, 0, target)]) < target && 0 < n <= |s|
    ensures Value(s[..n]) < target
  {
  }

  lemma UnselectedIsUnaffordable(us: seq<Utxo>, target: int)
    requires Select(us, target).Err?
    ensures !Affordable(us, target) && Select(us, target).error == Value(us)
  {
    SelectionFacts(us);
    var s := Descending(us);
    assert s[..|s|] == s;
    forall part: seq<Utxo> | multiset(part) <= multiset(us) && (us != [] ==> part != [])
      ensures Value(part) < target
    {
      TopCoinsAreRichest(s, part);
      if part != [] { NoPrefixReaches(s, target, |part|); } else { assert s == [] by { assert |multiset(s)| == |s|; } }
    }
  }

  /** Selection succeeds exactly when some coins are worth the target, and otherwise reports the
      value of all of them, whatever their signs. */
  lemma SelectionExactly(us: seq<Utxo>, target: int)
    ensures Select(us, target).Ok? <==> Affordable(us, target)
    ensures Select(us, target).Err? ==> Select(us, target).error == Value(us)
  {
    if Select(us, target).Ok? { SelectedIsAffordable(us, target); } else { UnselectedIsUnaffordable(us, target); }
  }

  lemma FrontIsLarger(s: seq<Utxo>, n: nat)
    requires Sorted(LargerFirst, s) && n <= |s|
    ensures forall u, v :: u in s[..n] && v in s[n..] ==> v.satoshis <= u.satoshis
  {
    forall u, v | u in s[..n] && v in s[n..] ensures v.satoshis <= u.satoshis {
      var i :| 0 <= i < n && s[i] == u;
      var j :| n <= j < |s| && s[j] == v;
      assert LargerFirst(s[i], s[j]);
    }
  }

  lemma SplitMultiset(s: seq<Utxo>, n: nat)
    requires n <= |s|
    ensures multiset(s) == multiset(s[..n]) + multiset(s[n..])
  {
    assert s == s[..n] + s[n..];
  }

  /** The coins selected are the largest: none that is left is worth more than one that is taken. */
  lemma LargestAreSelected(us: seq<Utxo>, target: int) returns (left: seq<Utxo>)
    requires Select(us, target).Ok?
    ensures multiset(us) == multiset(Select(us, target).value) + multiset(left)
    ensures forall u, v :: u in Select(us, target).value && v in left ==> v.satoshis <= u.satoshis
  {
    SelectionFacts(us);
    var s := Descending(us);
    var n := Taken(s, 0, target);
    left := s[n..];
    SplitMultiset(s, n);
    FrontIsLarger(s, n);
  }

  /** The transaction pays exactly these amounts, spends coins of the list, and what is neither paid
      nor returned as change is the fee: exactly it beside change, which is never dust, and at most
      the dust limit more without. */
  ghost predicate Pays(tx: Tx, payments: seq<int>, us: seq<Utxo>, fee: int) {
    var rest := Value(tx.inputs) - Sum(payments) - fee;
    && tx.payments == payments && multiset(tx.inputs) <= multiset(us)
    && (if rest > 1000 then tx.change == Some(rest) else tx.change == None && rest >= 0)
  }

  lemma BuiltPays(payments: seq<int>, us: seq<Utxo>, fee: int)
    requires BuildTx(payments, us, fee).Ok?
    ensures Pays(BuildTx(payments, us, fee).value, payments, us, fee)
  {
    SelectedAreOffered(us, Sum(payments) + fee);
  }

  lemma BuiltExactly(payments: seq<int>, us: seq<Utxo>, fee: int)
    ensures BuildTx(payments, us, fee).Ok? <==> Affordable(us, Sum(payments) + fee)
    ensures BuildTx(payments, us, fee).Err? ==> BuildTx(payments, us, fee).error == InsufficientFunds(Value(us))
  {
    SelectionExactly(us, Sum(payments) + fee);
  }

  /** Built as asked, or refused for want of coins. */
  ghost predicate BuiltOrShort(r: Result<Tx, PaymentError>, payments: seq<int>, us: seq<Utxo>, fee: int) {
    if Affordable(us, Sum(payments) + fee) then r.Ok? && Pays(r.value, payments, us, fee) else r == Err(InsufficientFunds(Value(us)))
  }

  lemma BuiltIsBuiltOrShort(payments: seq<int>, us: seq<Utxo>, fee: int)
    ensures BuiltOrShort(BuildTx(payments, us, fee), payments, us, fee)
  {
    BuiltExactly(payments, us, fee);
    if BuildTx(payments, us, fee).Ok? { BuiltPays(payments, us, fee); }
  }

  /** One payment is refused if its amount is not positive or too large; otherwise the recipient gets
      it to the nearest satoshi and the miners the fee if and only if some coins are worth both. */
  lemma PaymentExactly(amount: real, n: int, us: seq<Utxo>, fee: int)
    requires Nearest(amount, n)
    ensures var r := PaymentTx(amount, us, fee);
      if amount <= 0.0 then r == Err(InvalidAmount)
      else if n > 9007199254740991 then r == Err(AmountTooLarge)
      else BuiltOrShort(r, [n], us, fee)
  {
    NearestIsRounded(amount, n);
    BuiltIsBuiltOrShort([n], us, fee);
  }

  /** Many payments are refused if there are none or one is not positive; otherwise each recipient
      gets its own amount to the nearest satoshi if and only if some coins are worth all and the fee. */
  lemma MultiPaymentExactly(amounts: seq<real>, ns: seq<int>, us: seq<Utxo>, fee: int)
    requires |ns| == |amounts| && forall i :: 0 <= i < |ns| ==> Nearest(amounts[i], ns[i])
    ensures var r := MultiPaymentTx(amounts, us, fee);
      if amounts == [] then r == Err(NoOutputs)
      else if exists i :: 0 <= i < |amounts| && amounts[i] <= 0.0 then r == Err(InvalidAmount)
      else BuiltOrShort(r, ns, us, fee)
  {
    forall i | 0 <= i < |ns| ensures ns[i] == ToSatoshis(amounts[i]) { NearestIsRounded(amounts[i], ns[i]); }
    assert ns == Map(ToSatoshis, amounts);
    BuiltIsBuiltOrShort(ns, us, fee);
  }
}
