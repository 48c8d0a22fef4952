/** Greedy coin selection and the value side of payment transactions. */
module Payment {
  import opened Prelude
  import opened Sorting

  datatype Outpoint = Outpoint(txid: string, vout: nat)

  datatype Utxo = Utxo(outpoint: Outpoint, satoshis: int, address: string)

  const SATS_PER_COIN: real := 100000000.0
  const DUST_LIMIT := 1000
  const MAX_SAFE_INTEGER := 9007199254740991

  function Value(us: seq<Utxo>): int {
    if us == [] then 0 else Value(us[..|us| - 1]) + us[|us| - 1].satoshis
  }

  lemma ValuePush(us: seq<Utxo>, u: Utxo)
    ensures Value(us + [u]) == Value(us) + u.satoshis
  {
    assert (us + [u])[..|us|] == us;
  }

  function Outpoints(us: seq<Utxo>): seq<Outpoint> {
    Map((u: Utxo) => u.outpoint, us)
  }

  /** Math.round(amount * SATS_PER_COIN). */
  function ToSatoshis(amount: real): int {
    (amount * SATS_PER_COIN + 0.5).Floor
  }

  /** The builders divide a whole number of satoshis by SATS_PER_COIN and selectUtxos
      multiplies it back: the target survives. */
  lemma RescalingRecoversTarget(n: int)
    ensures ToSatoshis(n as real / SATS_PER_COIN) == n
  {
    assert n as real / SATS_PER_COIN * SATS_PER_COIN == n as real;
  }

  predicate LargerFirst(a: Utxo, b: Utxo) { b.satoshis <= a.satoshis }

  function Descending(us: seq<Utxo>): seq<Utxo> { Sort(LargerFirst, us) }

  // ---- selectUtxos ----

  /** How many of s the selection loop takes, having taken i without reaching the target. */
  function Taken(s: seq<Utxo>, i: nat, target: int): (n: nat)
    requires i <= |s|
    ensures i <= n <= |s|
    ensures forall j :: i < j < n ==> Value(s[..j]) < target
    ensures n < |s| ==> n > i && Value(s[..n]) >= target
    decreases |s| - i
  {
    if i == |s| then i
    else if Value(s[..i + 1]) >= target then i + 1
    else Taken(s, i + 1, target)
  }

  /** The selected coins, or the shortfall error with the total at hand. */
  function Select(us: seq<Utxo>, target: int): Result<seq<Utxo>, int> {
    var s := Descending(us);
    var picked := s[..Taken(s, 0, target)];
    if Value(picked) < target then Err(Value(picked)) else Ok(picked)
  }

  method TakeUntil(sorted: seq<Utxo>, target: int) returns (selected: seq<Utxo>, total: int)
    ensures selected == sorted[..Taken(sorted, 0, target)] && total == Value(selected)
  {
    selected, total := [], 0;
    for i := 0 to |sorted|
      invariant selected == sorted[..i] && total == Value(selected)
      invariant Taken(sorted, i, target) == Taken(sorted, 0, target)
    {
      ValuePush(selected, sorted[i]);
      selected := selected + [sorted[i]];
      total := total + sorted[i].satoshis;
      assert selected == sorted[..i + 1];
      if total >= target { return; }
    }
  }

  method SelectUtxos(utxos: seq<Utxo>, targetAmount: real) returns (r: Result<(seq<Utxo>, int), int>)
    ensures match Select(utxos, ToSatoshis(targetAmount))
            case Ok(picked) => r == Ok((picked, Value(picked)))
            case Err(have) => r == Err(have)
  {
    var target := ToSatoshis(targetAmount);
    var sorted := Descending(utxos);
    var selected, total := TakeUntil(sorted, target);
    if total < target { return Err(total); }
    return Ok((selected, total));
  }

  lemma {:induction false} ValueAppend(a: seq<Utxo>, b: seq<Utxo>)
    ensures Value(a + b) == Value(a) + Value(b)
  {
    if b == [] {
      assert a + b == a;
    } else {
      assert (a + b)[..|a + b| - 1] == a + b[..|b| - 1];
      ValueAppend(a, b[..|b| - 1]);
    }
  }

  /** Takes one occurrence of a coin out of a sequence. */
  lemma TakeOut(s: seq<Utxo>, x: Utxo) returns (rest: seq<Utxo>)
    requires x in s
    ensures |rest| == |s| - 1
    ensures multiset(rest) == multiset(s) - multiset{x}
    ensures Value(s) == x.satoshis + Value(rest)
  {
    var i :| 0 <= i < |s| && s[i] == x;
    var a, b := s[..i], s[i + 1..];
    rest := a + b;
    assert s == a + [x] + b;
    assert multiset(s) == multiset(a) + multiset{x} + multiset(b);
    ValueAppend(a + [x], b);
    ValuePush(a, x);
    ValueAppend(a, b);
  }

  lemma ValueOfPrefix(s: seq<Utxo>, n: nat)
    requires 0 < n <= |s|
    ensures Value(s[..n]) == s[0].satoshis + Value(s[1..][..n - 1])
    ensures Value(s[..n]) == Value(s[..n - 1]) + s[n - 1].satoshis
  {
    assert s[..n] == [s[0]] + s[1..][..n - 1];
    ValueAppend([s[0]], s[1..][..n - 1]);
    ValuePush([], s[0]);
    assert s[..n][..n - 1] == s[..n - 1];
  }

  /** Dropping the largest coin and taking n cannot raise the value of the first n. */
  lemma {:induction false} ShiftedWindow(s: seq<Utxo>, n: nat)
    requires Sorted(LargerFirst, s) && n < |s|
    ensures Value(s[1..][..n]) <= Value(s[..n])
  {
    if n > 0 {
      ValueOfPrefix(s, n);
      ValueOfPrefix(s[1..], n);
      ShiftedWindow(s, n - 1);
      assert LargerFirst(s[n - 1], s[n]);
    }
  }

  /** No choice of n coins is worth more than the n largest. */
  lemma {:induction false} TopCoinsAreRichest(s: seq<Utxo>, other: seq<Utxo>)
    requires Sorted(LargerFirst, s) && multiset(other) <= multiset(s)
    ensures |other| <= |s| && Value(other) <= Value(s[..|other|])
    decreases |s|
  {
    SubMultisetSize(s, other);
    if other != [] {
      var first, rest := s[0], s[1..];
      WithoutFirst(s);
      if first in other {
        var others := TakeOut(other, first);
        TopCoinsAreRichest(rest, others);
        ValueOfPrefix(s, |other|);
      } else {
        TopCoinsAreRichest(rest, other);
        ShiftedWindow(s, |other|);
      }
    }
  }

  lemma WithoutFirst(s: seq<Utxo>)
    requires s != []
    ensures multiset(s[1..]) == multiset(s) - multiset{s[0]}
    ensures Sorted(LargerFirst, s) ==> Sorted(LargerFirst, s[1..])
  {
    assert s == [s[0]] + s[1..];
  }

  lemma SubMultisetSize(s: seq<Utxo>, other: seq<Utxo>)
    requires multiset(other) <= multiset(s)
    ensures |other| <= |s|
  {
    assert |multiset(other)| == |other| && |multiset(s)| == |s|;
    assert multiset(s) == multiset(other) + (multiset(s) - multiset(other));
  }

  lemma SelectionFacts(us: seq<Utxo>)
    ensures Sorted(LargerFirst, Descending(us)) && multiset(Descending(us)) == multiset(us)
    ensures Value(Descending(us)) == Value(us)
  {
    SortCorrect(LargerFirst, us);
    SameMultisetValue(Descending(us), us);
  }

  lemma {:induction false} SameMultisetValue(a: seq<Utxo>, b: seq<Utxo>)
    requires multiset(a) == multiset(b)
    ensures Value(a) == Value(b)
    decreases |a|
  {
    if a == [] {
      assert |multiset(b)| == 0;
    } else {
      var x := a[0];
      assert x in multiset(b);
      var restA := TakeOut(a, x);
      var restB := TakeOut(b, x);
      SameMultisetValue(restA, restB);
    }
  }

  /** The greedy choice is optimal exactly when something is asked for: with a positive target
      no smaller set of the given coins reaches it, otherwise the empty set already does. */
  lemma GreedyIsOptimal(us: seq<Utxo>, target: int)
    requires Select(us, target).Ok? && us != []
    ensures (forall other: seq<Utxo> ::
               multiset(other) <= multiset(us) && |other| < |Select(us, target).value| ==> Value(other) < target)
            <==> target > 0
  {
    SelectionFacts(us);
    var s := Descending(us);
    assert |multiset(s)| == |s| && |multiset(us)| == |us|;
    var n := Taken(s, 0, target);
    if target > 0 {
      forall other: seq<Utxo> | multiset(other) <= multiset(us) && |other| < n
        ensures Value(other) < target
      {
        TopCoinsAreRichest(s, other);
        if other == [] { assert Value(other) == 0; }
      }
    } else {
      var none: seq<Utxo> := [];
      assert multiset(none) <= multiset(us) && Value(none) >= target;
    }
  }

  /** With non-negative coins, selection fails exactly when no set of them reaches the target. */
  lemma GreedyFailsOnlyWhenHopeless(us: seq<Utxo>, target: int)
    requires forall u :: u in us ==> u.satoshis >= 0
    requires us != []
    ensures Select(us, target).Err? <==>
      (forall other: seq<Utxo> :: multiset(other) <= multiset(us) ==> Value(other) < target)
  {
    SelectionFacts(us);
    var s := Descending(us);
    if Select(us, target).Err? {
      assert s[..|s|] == s;
      forall i | 0 <= i < |s| ensures s[i].satoshis >= 0 { assert s[i] in multiset(us); }
      forall other: seq<Utxo> | multiset(other) <= multiset(us) ensures Value(other) < target {
        WholeIsRichest(s, other);
      }
    } else {
      var picked := Select(us, target).value;
      assert s == picked + s[|picked|..];
      assert multiset(picked) <= multiset(us);
    }
  }

  lemma WholeIsRichest(s: seq<Utxo>, other: seq<Utxo>)
    requires Sorted(LargerFirst, s) && multiset(other) <= multiset(s)
    requires forall i :: 0 <= i < |s| ==> s[i].satoshis >= 0
    ensures Value(other) <= Value(s)
  {
    TopCoinsAreRichest(s, other);
    PrefixIsNoRicher(s, |other|);
  }

  lemma PrefixIsNoRicher(s: seq<Utxo>, n: nat)
    requires n <= |s| && forall i :: 0 <= i < |s| ==> s[i].satoshis >= 0
    ensures Value(s[..n]) <= Value(s)
  {
    var back := s[n..];
    assert s == s[..n] + back;
    ValueAppend(s[..n], back);
    assert forall i :: 0 <= i < |back| ==> back[i] == s[n + i];
    NonNegativeValue(back);
  }

  lemma {:induction false} NonNegativeValue(us: seq<Utxo>)
    requires forall i :: 0 <= i < |us| ==> us[i].satoshis >= 0
    ensures Value(us) >= 0
  {
    if us != [] { NonNegativeValue(us[..|us| - 1]); }
  }

  lemma PrefixIsPart(s: seq<Utxo>, n: nat)
    requires n <= |s|
    ensures multiset(s[..n]) <= multiset(s)
  {
    assert s == s[..n] + s[n..];
  }

  /** Only offered coins are selected, each at most as often as it was offered. */
  lemma SelectedAreOffered(us: seq<Utxo>, target: int)
    requires Select(us, target).Ok?
    ensures multiset(Select(us, target).value) <= multiset(us)
    ensures forall u :: u in Select(us, target).value ==> u in us
    ensures Value(Select(us, target).value) >= target
  {
    SelectionFacts(us);
    var picked := Select(us, target).value;
    PrefixIsPart(Descending(us), |picked|);
    forall u | u in picked ensures u in us {
      assert u in multiset(picked);
      assert u in multiset(us);
    }
  }

  // ---- buildPayment and buildMultiPayment ----

  datatype PaymentError = NoOutputs | InvalidAmount | AmountTooLarge | InsufficientFunds(have: int)

  /** The value side of a signed transaction. The change output, if any, is the last output. */
  datatype Tx = Tx(inputs: seq<Utxo>, payments: seq<int>, change: Option<int>)
  {
    function Fee(): int { Value(inputs) - Sum(payments) - change.GetOr(0) }
    /** Index of the change output. */
    function ChangeVout(): nat { |payments| }
  }

  function BuildTx(payments: seq<int>, us: seq<Utxo>, fee: int): Result<Tx, PaymentError> {
    match Select(us, Sum(payments) + fee)
    case Err(have) => Err(InsufficientFunds(have))
    case Ok(picked) =>
      var change := Value(picked) - Sum(payments) - fee;
      Ok(Tx(picked, payments, if change > DUST_LIMIT then Some(change) else None))
  }

  function PaymentTx(amount: real, us: seq<Utxo>, fee: int): Result<Tx, PaymentError> {
    if amount <= 0.0 then Err(InvalidAmount)
    else if ToSatoshis(amount) > MAX_SAFE_INTEGER then Err(AmountTooLarge)
    else BuildTx([ToSatoshis(amount)], us, fee)
  }

  function MultiPaymentTx(amounts: seq<real>, us: seq<Utxo>, fee: int): Result<Tx, PaymentError> {
    if amounts == [] then Err(NoOutputs)
    else if exists i :: 0 <= i < |amounts| && amounts[i] <= 0.0 then Err(InvalidAmount)
    else BuildTx(Map(ToSatoshis, amounts), us, fee)
  }

  /** The common end of both builders: coins for the outputs and the fee, and what is left as change. */
  method FundOutputs(payments: seq<int>, total: int, utxos: seq<Utxo>, fee: int) returns (r: Result<Tx, PaymentError>)
    requires total == Sum(payments)
    ensures r == BuildTx(payments, utxos, fee)
  {
    var totalNeeded := total + fee;
    RescalingRecoversTarget(totalNeeded);
    var sel := SelectUtxos(utxos, totalNeeded as real / SATS_PER_COIN);
    if sel.Err? { return Err(InsufficientFunds(sel.error)); }
    var (selected, inputTotal) := sel.value;
    var changeSatoshis := inputTotal - total - fee;
    var hasChange := changeSatoshis > 1000;
    return Ok(Tx(selected, payments, if hasChange then Some(changeSatoshis) else None));
  }

  method BuildPayment(amount: real, utxos: seq<Utxo>, fee: int) returns (r: Result<Tx, PaymentError>)
    ensures r == PaymentTx(amount, utxos, fee)
  {
    if amount <= 0.0 { return Err(InvalidAmount); }
    var amountSatoshis := ToSatoshis(amount);
    if amountSatoshis > MAX_SAFE_INTEGER { return Err(AmountTooLarge); }
    assert Sum([amountSatoshis]) == amountSatoshis by { assert [amountSatoshis][..0] == []; }
    r := FundOutputs([amountSatoshis], amountSatoshis, utxos, fee);
  }

  method RoundOutputs(amounts: seq<real>) returns (payments: seq<int>, total: int)
    ensures payments == Map(ToSatoshis, amounts) && total == Sum(payments)
  {
    payments, total := [], 0;
    for i := 0 to |amounts|
      invariant |payments| == i && forall j :: 0 <= j < i ==> payments[j] == ToSatoshis(amounts[j])
      invariant total == Sum(payments)
    {
      var satoshis := ToSatoshis(amounts[i]);
      assert (payments + [satoshis])[..i] == payments;
      payments := payments + [satoshis];
      total := total + satoshis;
    }
  }

  method BuildMultiPayment(amounts: seq<real>, utxos: seq<Utxo>, fee: int) returns (r: Result<Tx, PaymentError>)
    ensures r == MultiPaymentTx(amounts, utxos, fee)
  {
    if amounts == [] { return Err(NoOutputs); }
    for i := 0 to |amounts|
      invariant forall j :: 0 <= j < i ==> amounts[j] > 0.0
    {
      if amounts[i] <= 0.0 { return Err(InvalidAmount); }
    }
    var payments, totalOutputSatoshis := RoundOutputs(amounts);
    r := FundOutputs(payments, totalOutputSatoshis, utxos, fee);
  }

  /** No satoshi is created or lost: inputs equal payments, change and a fee that exceeds the
      configured one by at most the dust limit, and dust is never returned as change. */
  lemma ValueIsConserved(payments: seq<int>, us: seq<Utxo>, fee: int)
    requires BuildTx(payments, us, fee).Ok?
    ensures var tx := BuildTx(payments, us, fee).value;
      && tx.payments == payments
      && fee <= tx.Fee() <= fee + DUST_LIMIT
      && (tx.change.Some? ==> tx.change.value > DUST_LIMIT && tx.Fee() == fee)
      && multiset(tx.inputs) <= multiset(us)
  {
    SelectedAreOffered(us, Sum(payments) + fee);
  }
}
