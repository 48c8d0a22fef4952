/** What the wallet can spend over a run of chained sends. */
module WalletValue {
  import opened Prelude
  import opened Payment
  import opened FifoSet
  import opened Wallet

  /** The truth behind the platform's answers: every output the agent ever owned with its value,
      the outputs the platform has confirmed, and the agent's own bookkeeping. */
  datatype Book = Book(coins: map<Outpoint, nat>, confirmed: set<Outpoint>, spent: seq<Outpoint>, pending: seq<Utxo>)

  /** One send: the platform's coin list when it fetched, the outputs confirmed by then, the
      transaction it built, and the txid its broadcast returned, if it succeeded. */
  datatype Attempt = Attempt(api: seq<Utxo>, confirmed: set<Outpoint>, request: Request, tx: Tx, txid: Option<string>)

  /** The list tells the truth about values, may still show spent outputs, and shows at least
      every confirmed output that is not spent. */
  predicate TruthfulApi(b: Book, a: Attempt) {
    && b.confirmed <= a.confirmed <= b.coins.Keys
    && (forall u :: u in a.api ==> u.outpoint in a.confirmed && u.satoshis == b.coins[u.outpoint] && u.satoshis > 0)
    && (forall o :: o in a.confirmed && o !in b.spent ==> o in OutpointSet(a.api))
  }

  /** Every unspent output is confirmed or waits as pending change, under its true value. */
  predicate Accounted(b: Book) {
    && b.confirmed <= b.coins.Keys
    && (forall u :: u in b.pending ==> u.outpoint in b.coins && u.satoshis == b.coins[u.outpoint])
    && (forall o :: o in b.coins && o !in b.spent ==> o in b.confirmed || o in OutpointSet(b.pending))
    && (forall o :: o in b.spent ==> o in b.coins)
  }

  function Unspent(b: Book): map<Outpoint, nat> { map o | o in b.coins && o !in b.spent :: b.coins[o] }

  function PendingAtFetch(b: Book, a: Attempt): seq<Utxo> { PrunePending(b.pending, b.spent, OutpointSet(a.api)) }

  /** What mergeUtxos offers the send. */
  function Merged(b: Book, a: Attempt): seq<Utxo> { Offer(a.api + PendingAtFetch(b, a), b.spent) }

  /** The send built its transaction from coins it was offered, nothing was evicted, and a change
      output that reached the chain is a new output of the agent. */
  predicate Sent(b: Book, a: Attempt) {
    && TruthfulApi(b, a)
    && (var offered := FromSource(Merged(b, a), a.request.source);
        BuildTx(a.request.payments, offered, a.request.fee) == Ok(a.tx))
    && |b.spent| + |a.tx.inputs| <= MAX_SPENT_UTXOS && |b.pending| < MAX_PENDING_CHANGE
    && (a.txid.Some? && a.tx.change.Some? ==> Outpoint(a.txid.value, a.tx.ChangeVout()) !in b.coins)
  }

  /** The output a send adds: none when it failed or left only dust. */
  function NewCoin(a: Attempt): map<Outpoint, nat> {
    if a.txid.Some? && a.tx.change.Some? && a.tx.change.value >= 0
    then map[Outpoint(a.txid.value, a.tx.ChangeVout()) := a.tx.change.value] else map[]
  }

  function ChangeOfAttempt(a: Attempt): seq<Utxo> {
    if a.txid.Some? && a.tx.change.Some?
    then [ChangeOf(a.tx, a.txid.value, a.request.changeAddress).value] else []
  }

  /** The book once the send is over. */
  function After(b: Book, a: Attempt): Book {
    var marked := AddAll(b.spent, Outpoints(a.tx.inputs));
    var pending := PendingAtFetch(b, a) + ChangeOfAttempt(a);
    Book(
      b.coins + NewCoin(a),
      a.confirmed,
      if a.request.single then Newest(marked, MAX_SPENT_UTXOS) else marked,
      if a.request.single then Newest(pending, MAX_PENDING_CHANGE) else pending)
  }

  /** What a send takes out of reach: payments and fee, or all its inputs when the broadcast failed. */
  function Cost(a: Attempt): int {
    if a.txid.Some? then Sum(a.request.payments) + a.tx.Fee() else Value(a.tx.inputs)
  }

  // ---- one fetch offers exactly the unspent value ----

  lemma {:induction false} PruneFacts(pending: seq<Utxo>, spent: seq<Outpoint>, apiKeys: set<Outpoint>)
    ensures forall u :: u in PrunePending(pending, spent, apiKeys) <==> u in pending && u.outpoint !in spent && u.outpoint !in apiKeys
    ensures |PrunePending(pending, spent, apiKeys)| <= |pending|
  {
    if pending != [] {
      var before := pending[..|pending| - 1];
      PruneFacts(before, spent, apiKeys);
      assert pending == before + [pending[|pending| - 1]];
    }
  }

  lemma LastCoin(us: seq<Utxo>)
    requires DistinctOutpoints(us) && us != []
    ensures var before, o := us[..|us| - 1], us[|us| - 1].outpoint;
      && DistinctOutpoints(before) && o !in OutpointSet(before)
      && OutpointSet(us) == OutpointSet(before) + {o}
      && forall u :: u in before ==> u in us
  {
    assert us == us[..|us| - 1] + [us[|us| - 1]];
  }

  /** A list with each coin of m once, at its value, is worth the total of m. */
  lemma {:induction false} ValueIsTotal(us: seq<Utxo>, m: map<Outpoint, nat>)
    requires DistinctOutpoints(us) && OutpointSet(us) == m.Keys
    requires forall u :: u in us ==> u.satoshis == m[u.outpoint]
    ensures Value(us) == Total(m)
  {
    if us != [] {
      var before, u := us[..|us| - 1], us[|us| - 1];
      LastCoin(us);
      TotalRemove(m, u.outpoint);
      assert (m - {u.outpoint}).Keys == OutpointSet(before);
      ValueIsTotal(before, m - {u.outpoint});
    } else {
      assert m.Keys == {};
    }
  }

  lemma MergedIsUnspent(b: Book, a: Attempt)
    requires Accounted(b) && TruthfulApi(b, a)
    ensures OutpointSet(Merged(b, a)) == Unspent(b).Keys
    ensures forall u :: u in Merged(b, a) ==> u.outpoint in b.coins && u.satoshis == b.coins[u.outpoint]
  {
    var pending := PendingAtFetch(b, a);
    PruneFacts(b.pending, b.spent, OutpointSet(a.api));
    OfferIsClean(a.api + pending, b.spent);
    forall o ensures o in OutpointSet(Merged(b, a)) <==> o in Unspent(b) {
      if o in Unspent(b) && o !in OutpointSet(a.api) {
        assert o in OutpointSet(b.pending);
        var u :| u in b.pending && u.outpoint == o;
        assert u in pending && u in a.api + pending;
      }
      if o in OutpointSet(a.api) {
        var u :| u in a.api && u.outpoint == o;
        assert u in a.api + pending;
      }
    }
  }

  /** The value mergeUtxos offers is exactly the value of the outputs that are not spent: a change
      output that has confirmed counts once, one that has not still counts. */
  lemma OfferIsUnspentValue(b: Book, a: Attempt)
    requires Accounted(b) && TruthfulApi(b, a)
    ensures Value(Merged(b, a)) == Total(Unspent(b))
  {
    MergedIsUnspent(b, a);
    OfferIsClean(a.api + PendingAtFetch(b, a), b.spent);
    ValueIsTotal(Merged(b, a), Unspent(b));
  }

  // ---- one send ----

  lemma InputsOfSend(b: Book, a: Attempt)
    requires Accounted(b) && Sent(b, a)
    ensures DistinctOutpoints(a.tx.inputs)
    ensures forall u :: u in a.tx.inputs ==> u.outpoint in Unspent(b) && u.satoshis == b.coins[u.outpoint]
    ensures After(b, a).spent == b.spent + Outpoints(a.tx.inputs)
  {
    var offered := FromSource(Merged(b, a), a.request.source);
    OfferIsClean(a.api + PendingAtFetch(b, a), b.spent);
    SourceKeepsClean(Merged(b, a), a.request.source, b.spent);
    InputsAreFresh(a.request.payments, offered, a.request.fee, b.spent);
    SelectedAreOffered(offered, Sum(a.request.payments) + a.request.fee);
    MergedIsUnspent(b, a);
    forall u | u in a.tx.inputs ensures u.outpoint in Unspent(b) && u.satoshis == b.coins[u.outpoint] {
      assert u in Merged(b, a);
      assert u.outpoint in OutpointSet(Merged(b, a));
    }
  }

  lemma ChangeIsPositive(b: Book, a: Attempt)
    requires Sent(b, a)
    ensures a.tx.change.Some? ==> a.tx.change.value > 0
    ensures Value(a.tx.inputs) == Sum(a.request.payments) + a.tx.change.GetOr(0) + a.tx.Fee()
    ensures a.request.fee <= a.tx.Fee() <= a.request.fee + DUST_LIMIT
  {
    ValueIsConserved(a.request.payments, FromSource(Merged(b, a), a.request.source), a.request.fee);
  }

  lemma AfterSend(b: Book, a: Attempt)
    requires Accounted(b) && Sent(b, a)
    ensures After(b, a) == Book(b.coins + NewCoin(a), a.confirmed, b.spent + Outpoints(a.tx.inputs), PendingAtFetch(b, a) + ChangeOfAttempt(a))
  {
    InputsOfSend(b, a);
    PruneFacts(b.pending, b.spent, OutpointSet(a.api));
  }

  lemma OutpointsAreSet(us: seq<Utxo>)
    ensures forall o :: o in Outpoints(us) <==> o in OutpointSet(us)
  {
    forall o | o in OutpointSet(us) ensures o in Outpoints(us) {
      var i :| 0 <= i < |us| && us[i].outpoint == o;
      assert Outpoints(us)[i] == o;
    }
  }

  lemma SendKeepsAccounted(b: Book, a: Attempt)
    requires Accounted(b) && Sent(b, a)
    ensures Accounted(After(b, a))
  {
    AfterSend(b, a);
    InputsOfSend(b, a);
    ChangeIsPositive(b, a);
    PruneFacts(b.pending, b.spent, OutpointSet(a.api));
    OutpointsAreSet(a.tx.inputs);
    var c := After(b, a);
    forall o | o in c.coins && o !in c.spent ensures o in c.confirmed || o in OutpointSet(c.pending) {
      if o in NewCoin(a) {
        assert c.pending[|c.pending| - 1].outpoint == o;
      } else if o !in c.confirmed {
        assert o in OutpointSet(b.pending);
        var u :| u in b.pending && u.outpoint == o;
        assert u in PendingAtFetch(b, a) && u in c.pending;
      }
    }
  }

  /** The unspent outputs a send uses, and those it leaves. */
  function Used(b: Book, a: Attempt): map<Outpoint, nat> {
    map o | o in Unspent(b) && o in OutpointSet(a.tx.inputs) :: b.coins[o]
  }

  function Kept(b: Book, a: Attempt): map<Outpoint, nat> {
    map o | o in Unspent(b) && o !in OutpointSet(a.tx.inputs) :: b.coins[o]
  }

  lemma UsedIsInputs(b: Book, a: Attempt)
    requires Accounted(b) && Sent(b, a)
    ensures Total(Unspent(b)) == Value(a.tx.inputs) + Total(Kept(b, a))
  {
    InputsAreUsed(b, a);
    UnspentSplits(b, a);
    TotalDisjointUnion(Used(b, a), Kept(b, a));
    ValueIsTotal(a.tx.inputs, Used(b, a));
  }

  lemma UnspentSplits(b: Book, a: Attempt)
    ensures Unspent(b) == Used(b, a) + Kept(b, a) && Used(b, a).Keys !! Kept(b, a).Keys
  {
  }

  lemma InputsAreUsed(b: Book, a: Attempt)
    requires Accounted(b) && Sent(b, a)
    ensures DistinctOutpoints(a.tx.inputs) && OutpointSet(a.tx.inputs) == Used(b, a).Keys
    ensures forall u :: u in a.tx.inputs ==> u.satoshis == Used(b, a)[u.outpoint]
  {
    InputsOfSend(b, a);
    forall o | o in OutpointSet(a.tx.inputs) ensures o in Used(b, a) {
      var u :| u in a.tx.inputs && u.outpoint == o;
    }
  }

  lemma UnspentAfter(b: Book, a: Attempt)
    requires Accounted(b) && Sent(b, a)
    ensures Unspent(After(b, a)) == Kept(b, a) + NewCoin(a) && Kept(b, a).Keys !! NewCoin(a).Keys
  {
    AfterSend(b, a);
    InputsOfSend(b, a);
    OutpointsAreSet(a.tx.inputs);
    NewCoinIsNew(b, a);
    UnspentOfUpdate(b, After(b, a), OutpointSet(a.tx.inputs), NewCoin(a));
    assert Kept(b, a) == map o | o in Unspent(b) && o !in OutpointSet(a.tx.inputs) :: b.coins[o];
  }

  lemma UnspentOfUpdate(b: Book, c: Book, used: set<Outpoint>, coin: map<Outpoint, nat>)
    requires c.coins == b.coins + coin && coin.Keys !! b.coins.Keys
    requires forall o :: o in c.spent <==> o in b.spent || o in used
    requires forall o :: o in coin ==> o !in b.spent && o !in used
    ensures Unspent(c) == (map o | o in Unspent(b) && o !in used :: b.coins[o]) + coin
  {
  }

  lemma NewCoinIsNew(b: Book, a: Attempt)
    requires Accounted(b) && Sent(b, a)
    ensures forall o :: o in NewCoin(a) ==> o !in b.coins && o !in b.spent && o !in OutpointSet(a.tx.inputs)
  {
    InputsOfSend(b, a);
  }

  lemma TotalOfNewCoin(a: Attempt)
    requires a.tx.change.Some? ==> a.tx.change.value > 0
    ensures Total(NewCoin(a)) == if a.txid.Some? then a.tx.change.GetOr(0) else 0
  {
    if a.txid.Some? && a.tx.change.Some? {
      var o := Outpoint(a.txid.value, a.tx.ChangeVout());
      TotalRemove(NewCoin(a), o);
      assert (NewCoin(a) - {o}).Keys == {};
    } else {
      assert NewCoin(a).Keys == {};
    }
  }

  lemma SendCost(b: Book, a: Attempt)
    requires Accounted(b) && Sent(b, a)
    ensures Total(Unspent(After(b, a))) == Total(Unspent(b)) - Cost(a)
  {
    UsedIsInputs(b, a);
    ChangeIsPositive(b, a);
    UnspentAfter(b, a);
    TotalDisjointUnion(Kept(b, a), NewCoin(a));
    TotalOfNewCoin(a);
  }

  // ---- a run of sends ----

  function BookAfter(b: Book, sends: seq<Attempt>): Book {
    if sends == [] then b else After(BookAfter(b, sends[..|sends| - 1]), sends[|sends| - 1])
  }

  function TotalCost(sends: seq<Attempt>): int {
    if sends == [] then 0 else TotalCost(sends[..|sends| - 1]) + Cost(sends[|sends| - 1])
  }

  predicate AllSent(b: Book, sends: seq<Attempt>) {
    sends == [] || (AllSent(b, sends[..|sends| - 1]) && Sent(BookAfter(b, sends[..|sends| - 1]), sends[|sends| - 1]))
  }

  /** Nothing leaks from a run of chained sends: while nothing is evicted, what the wallet offers
      next is what it started with minus all payments and fees, and minus the inputs of sends
      whose broadcast failed, whatever the platform has confirmed in between. */
  lemma {:induction false} ChainedSendsConserveValue(b: Book, sends: seq<Attempt>)
    requires Accounted(b) && AllSent(b, sends)
    ensures Accounted(BookAfter(b, sends))
    ensures Total(Unspent(BookAfter(b, sends))) == Total(Unspent(b)) - TotalCost(sends)
    ensures forall next :: TruthfulApi(BookAfter(b, sends), next) ==>
      Value(Merged(BookAfter(b, sends), next)) == Total(Unspent(b)) - TotalCost(sends)
  {
    if sends != [] {
      var before, a := sends[..|sends| - 1], sends[|sends| - 1];
      ChainedSendsConserveValue(b, before);
      SendKeepsAccounted(BookAfter(b, before), a);
      SendCost(BookAfter(b, before), a);
    }
    forall next | TruthfulApi(BookAfter(b, sends), next)
      ensures Value(Merged(BookAfter(b, sends), next)) == Total(Unspent(b)) - TotalCost(sends)
    {
      OfferIsUnspentValue(BookAfter(b, sends), next);
    }
  }

  // ---- a send as steps of the concurrent wallet ----

  lemma {:induction false} AllPositive(us: seq<Utxo>)
    requires forall u :: u in us ==> u.satoshis > 0
    ensures PositiveOnly(us) == us
  {
    if us != [] {
      AllPositive(us[..|us| - 1]);
      assert us == us[..|us| - 1] + [us[|us| - 1]];
    }
  }

  /** The book of one send is what its three steps, fetch, build and broadcast, do to the agent. */
  lemma SendIsThreeSteps(w: Agent, i: nat, b: Book, a: Attempt)
    requires MayStart(w, i) && w.sends[i].request == a.request && w.spent == b.spent && w.pendingChange == b.pending
    requires Accounted(b) && Sent(b, a) && FromSource(Merged(b, a), a.request.source) != []
    ensures var fetched := Next(w, Fetch(i, a.api));
      && Enabled(fetched, Build(i))
      && var built := Next(fetched, Build(i));
      && Enabled(built, Broadcast(i, a.txid))
      && var done := Next(built, Broadcast(i, a.txid));
      && done.sends[i].phase == Settled && done.spent == After(b, a).spent && done.pendingChange == After(b, a).pending
      && done.txs == w.txs + [a.tx]
  {
    AllPositive(a.api);
    AfterSend(b, a);
    PruneFacts(b.pending, b.spent, OutpointSet(a.api));
  }
}
