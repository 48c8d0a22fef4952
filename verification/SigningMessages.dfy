/** The pipe-delimited messages an agent or a buyer signs, and the guard that keeps them out of
    challenges. */
module SigningMessages {
  import opened Prelude
  import opened Texts

  datatype Action = Refund | Rework | Rejected

  /** What each builder prints. Amounts are given as they print, timestamps in Unix seconds. */
  datatype Message =
    | Accept(jobHash: string, buyer: string, amount: string, currency: string, timestamp: nat)
    | Deliver(jobHash: string, deliveryHash: string, timestamp: nat)
    | DisputeRespond(jobHash: string, action: Action, timestamp: nat)
    | ReworkAccept(jobHash: string, timestamp: nat)
    | Complete(jobHash: string, timestamp: nat)
    | Dispute(jobHash: string, reason: string, timestamp: nat)
    | PostBounty(title: string, amount: string, currency: string, timestamp: nat)
    | ApplyBounty(bountyId: string, timestamp: nat)
    | SelectClaimants(bountyId: string, applicantIds: seq<string>, timestamp: nat)
    | DepositReport(buyer: string, seller: string, txid: string, amount: string, nonce: string, timestamp: nat)

  function ActionText(a: Action): string {
    match a
    case Refund => "refund"
    case Rework => "rework"
    case Rejected => "rejected"
  }

  /** The first sixteen characters. */
  function Short(jobHash: string): string { if |jobHash| > 16 then jobHash[..16] else jobHash }

  function Head(m: Message): string {
    match m
    case Accept(_, _, _, _, _) => "J41-ACCEPT"
    case Deliver(_, _, _) => "J41-DELIVER"
    case DisputeRespond(_, _, _) => "J41-DISPUTE-RESPOND"
    case ReworkAccept(_, _) => "J41-REWORK-ACCEPT"
    case Complete(_, _) => "J41-COMPLETE"
    case Dispute(_, _, _) => "J41-DISPUTE"
    case PostBounty(_, _, _, _) => "J41-BOUNTY"
    case ApplyBounty(_, _) => "J41-BOUNTY-APPLY"
    case SelectClaimants(_, _, _) => "J41-BOUNTY-SELECT"
    case DepositReport(_, _, _, _, _, _) => "J41-DEPOSIT-REPORT"
  }

  const ACCEPT_TAIL := "I accept this job and commit " + "to delivering the work."
  const DELIVER_TAIL := "I have delivered " + "the work for this job."
  const COMPLETE_TAIL := "I confirm the work has been " + "delivered satisfactorily."
  const DISPUTE_TAIL := "I am raising a dispute " + "on this job."
  const BOUNTY_TAIL := "I commit to funding " + "this bounty."
  const DEPOSIT_TAIL := "I attest I sent this deposit " + "and claim its credit."

  /** The parts between the pipes after the head. */
  function Parts(m: Message): (parts: seq<string>)
    ensures |parts| >= 2
  {
    match m
    case Accept(jobHash, buyer, amount, currency, ts) =>
      ["Job:" + jobHash, "Buyer:" + buyer, "Amt:" + (amount + " " + currency), "Ts:" + Decimal(ts),
       ACCEPT_TAIL]
    case Deliver(jobHash, deliveryHash, ts) =>
      ["Job:" + jobHash, "Delivery:" + deliveryHash, "Ts:" + Decimal(ts), DELIVER_TAIL]
    case DisputeRespond(jobHash, action, ts) =>
      ["Job:" + Short(jobHash), "Action:" + ActionText(action), "Ts:" + Decimal(ts)]
    case ReworkAccept(jobHash, ts) => ["Job:" + Short(jobHash), "Ts:" + Decimal(ts)]
    case Complete(jobHash, ts) =>
      ["Job:" + jobHash, "Ts:" + Decimal(ts), COMPLETE_TAIL]
    case Dispute(jobHash, reason, ts) =>
      ["Job:" + jobHash, "Reason:" + reason, "Ts:" + Decimal(ts), DISPUTE_TAIL]
    case PostBounty(title, amount, currency, ts) =>
      ["Post:" + title, "Amount:" + amount, "Currency:" + currency, "Ts:" + Decimal(ts), BOUNTY_TAIL]
    case ApplyBounty(bountyId, ts) => ["Bounty:" + bountyId, "Ts:" + Decimal(ts)]
    case SelectClaimants(bountyId, ids, ts) =>
      ["Bounty:" + bountyId, "Selected:" + JoinWith(ids, ","), "Ts:" + Decimal(ts)]
    case DepositReport(buyer, seller, txid, amount, nonce, ts) =>
      ["Buyer:" + buyer, "Seller:" + seller, "Txid:" + txid, "Amt:" + amount, "Nonce:" + nonce, "Ts:" + Decimal(ts),
       DEPOSIT_TAIL]
  }

  function Joined(m: Message): string { Head(m) + "|" + JoinWith(Parts(m), "|") }

  // ---- the builders ----

  function BuildAcceptMessage(jobHash: string, buyer: string, amount: string, currency: string, ts: string): string {
    "J41-ACCEPT|Job:" + jobHash + "|Buyer:" + buyer + "|Amt:" + amount + " " + currency + "|Ts:" + ts + "|" + ACCEPT_TAIL
  }

  function BuildDeliverMessage(jobHash: string, deliveryHash: string, ts: string): string {
    "J41-DELIVER|Job:" + jobHash + "|Delivery:" + deliveryHash + "|Ts:" + ts + "|" + DELIVER_TAIL
  }

  function BuildDisputeRespondMessage(jobHash: string, action: string, ts: string): string {
    "J41-DISPUTE-RESPOND|Job:" + Short(jobHash) + "|Action:" + action + "|Ts:" + ts
  }

  function BuildReworkAcceptMessage(jobHash: string, ts: string): string {
    "J41-REWORK-ACCEPT|Job:" + Short(jobHash) + "|Ts:" + ts
  }

  function BuildCompleteMessage(jobHash: string, ts: string): string {
    "J41-COMPLETE|Job:" + jobHash + "|Ts:" + ts + "|" + COMPLETE_TAIL
  }

  function BuildDisputeMessage(jobHash: string, reason: string, ts: string): string {
    "J41-DISPUTE|Job:" + jobHash + "|Reason:" + reason + "|Ts:" + ts + "|" + DISPUTE_TAIL
  }

  function BuildPostBountyMessage(title: string, amount: string, currency: string, ts: string): string {
    "J41-BOUNTY|Post:" + title + "|Amount:" + amount + "|Currency:" + currency + "|Ts:" + ts + "|" + BOUNTY_TAIL
  }

  function BuildApplyBountyMessage(bountyId: string, ts: string): string {
    "J41-BOUNTY-APPLY|Bounty:" + bountyId + "|Ts:" + ts
  }

  function BuildSelectClaimantsMessage(bountyId: string, selected: string, ts: string): string {
    "J41-BOUNTY-SELECT|Bounty:" + bountyId + "|Selected:" + selected + "|Ts:" + ts
  }

  function BuildDepositReportMessage(buyer: string, seller: string, txid: string, amount: string, nonce: string, ts: string): string {
    "J41-DEPOSIT-REPORT|Buyer:" + buyer + "|Seller:" + seller + "|Txid:" + txid + "|Amt:" + amount + "|Nonce:" + nonce +
    "|Ts:" + ts + "|" + DEPOSIT_TAIL
  }

  function Build(m: Message): string {
    var ts := Decimal(m.timestamp);
    match m
    case Accept(jobHash, buyer, amount, currency, _) => BuildAcceptMessage(jobHash, buyer, amount, currency, ts)
    case Deliver(jobHash, deliveryHash, _) => BuildDeliverMessage(jobHash, deliveryHash, ts)
    case DisputeRespond(jobHash, action, _) => BuildDisputeRespondMessage(jobHash, ActionText(action), ts)
    case ReworkAccept(jobHash, _) => BuildReworkAcceptMessage(jobHash, ts)
    case Complete(jobHash, _) => BuildCompleteMessage(jobHash, ts)
    case Dispute(jobHash, reason, _) => BuildDisputeMessage(jobHash, reason, ts)
    case PostBounty(title, amount, currency, _) => BuildPostBountyMessage(title, amount, currency, ts)
    case ApplyBounty(bountyId, _) => BuildApplyBountyMessage(bountyId, ts)
    case SelectClaimants(bountyId, ids, _) => BuildSelectClaimantsMessage(bountyId, JoinWith(ids, ","), ts)
    case DepositReport(buyer, seller, txid, amount, nonce, _) => BuildDepositReportMessage(buyer, seller, txid, amount, nonce, ts)
  }

  lemma Join2(a: string, b: string)
    ensures JoinWith([a, b], "|") == a + "|" + b
  {
    assert [a, b][1..] == [b];
  }

  lemma Join3(a: string, b: string, c: string)
    ensures JoinWith([a, b, c], "|") == a + "|" + b + "|" + c
  {
    assert [a, b, c][1..] == [b, c];
    Join2(b, c);
  }

  lemma Join4(a: string, b: string, c: string, d: string)
    ensures JoinWith([a, b, c, d], "|") == a + "|" + b + "|" + c + "|" + d
  {
    assert [a, b, c, d][1..] == [b, c, d];
    Join3(b, c, d);
  }

  lemma Join5(a: string, b: string, c: string, d: string, e: string)
    ensures JoinWith([a, b, c, d, e], "|") == a + "|" + b + "|" + c + "|" + d + "|" + e
  {
    assert [a, b, c, d, e][1..] == [b, c, d, e];
    Join4(b, c, d, e);
  }

  lemma Join7(a: string, b: string, c: string, d: string, e: string, f: string, g: string)
    ensures JoinWith([a, b, c, d, e, f, g], "|") == a + "|" + b + "|" + c + "|" + d + "|" + e + "|" + f + "|" + g
  {
    assert [a, b, c, d, e, f, g][1..] == [b, c, d, e, f, g];
    assert [b, c, d, e, f, g][1..] == [c, d, e, f, g];
    Join5(c, d, e, f, g);
  }

  lemma AcceptText(jobHash: string, buyer: string, amount: string, currency: string, ts: string, tail: string)
    ensures "J41-ACCEPT|Job:" + jobHash + "|Buyer:" + buyer + "|Amt:" + amount + " " + currency + "|Ts:" + ts + "|" + tail ==
      "J41-ACCEPT" + "|" + (("Job:" + jobHash) + "|" + ("Buyer:" + buyer) + "|" + ("Amt:" + (amount + " " + currency))
                            + "|" + ("Ts:" + ts) + "|" + tail)
  {
  }

  lemma AcceptJoined(jobHash: string, buyer: string, amount: string, currency: string, ts: string)
    ensures BuildAcceptMessage(jobHash, buyer, amount, currency, ts) ==
      "J41-ACCEPT" + "|" + JoinWith(["Job:" + jobHash, "Buyer:" + buyer, "Amt:" + (amount + " " + currency), "Ts:" + ts, ACCEPT_TAIL], "|")
  {
    var tail := ACCEPT_TAIL;
    Join5("Job:" + jobHash, "Buyer:" + buyer, "Amt:" + (amount + " " + currency), "Ts:" + ts, tail);
    AcceptText(jobHash, buyer, amount, currency, ts, tail);
  }

  lemma PostBountyText(title: string, amount: string, currency: string, ts: string, tail: string)
    ensures "J41-BOUNTY|Post:" + title + "|Amount:" + amount + "|Currency:" + currency + "|Ts:" + ts + "|" + tail ==
      "J41-BOUNTY" + "|" + (("Post:" + title) + "|" + ("Amount:" + amount) + "|" + ("Currency:" + currency)
                            + "|" + ("Ts:" + ts) + "|" + tail)
  {
    var start := "J41-BOUNTY|Post:" + title + "|Amount:" + amount;
    assert start == "J41-BOUNTY" + "|" + (("Post:" + title) + "|" + ("Amount:" + amount));
    var end := "|Currency:" + currency + "|Ts:" + ts + "|" + tail;
    assert end == "|" + ("Currency:" + currency) + "|" + ("Ts:" + ts) + "|" + tail;
  }

  lemma PostBountyJoined(title: string, amount: string, currency: string, ts: string)
    ensures BuildPostBountyMessage(title, amount, currency, ts) ==
      "J41-BOUNTY" + "|" + JoinWith(["Post:" + title, "Amount:" + amount, "Currency:" + currency, "Ts:" + ts, BOUNTY_TAIL], "|")
  {
    var tail := BOUNTY_TAIL;
    Join5("Post:" + title, "Amount:" + amount, "Currency:" + currency, "Ts:" + ts, tail);
    PostBountyText(title, amount, currency, ts, tail);
  }

  lemma DepositStart(buyer: string, seller: string, txid: string)
    ensures "J41-DEPOSIT-REPORT|Buyer:" + buyer + "|Seller:" + seller + "|Txid:" + txid ==
      "J41-DEPOSIT-REPORT" + "|" + (("Buyer:" + buyer) + "|" + ("Seller:" + seller) + "|" + ("Txid:" + txid))
  {
  }

  lemma DepositEnd(start: string, amount: string, nonce: string, ts: string, tail: string)
    ensures start + "|Amt:" + amount + "|Nonce:" + nonce + "|Ts:" + ts + "|" + tail ==
      start + "|" + ("Amt:" + amount) + "|" + ("Nonce:" + nonce) + "|" + ("Ts:" + ts) + "|" + tail
  {
  }

  lemma DepositMiddle(head: string, start: string, a: string, n: string, t: string, tail: string)
    ensures head + start + "|" + a + "|" + n + "|" + t + "|" + tail == head + (start + "|" + a + "|" + n + "|" + t + "|" + tail)
  {
  }

  lemma DepositJoined(buyer: string, seller: string, txid: string, amount: string, nonce: string, ts: string)
    ensures BuildDepositReportMessage(buyer, seller, txid, amount, nonce, ts) ==
      "J41-DEPOSIT-REPORT" + "|" + JoinWith(["Buyer:" + buyer, "Seller:" + seller, "Txid:" + txid, "Amt:" + amount,
                                             "Nonce:" + nonce, "Ts:" + ts, DEPOSIT_TAIL], "|")
  {
    var tail := DEPOSIT_TAIL;
    var start := ("Buyer:" + buyer) + "|" + ("Seller:" + seller) + "|" + ("Txid:" + txid);
    Join7("Buyer:" + buyer, "Seller:" + seller, "Txid:" + txid, "Amt:" + amount, "Nonce:" + nonce, "Ts:" + ts, tail);
    DepositStart(buyer, seller, txid);
    DepositEnd("J41-DEPOSIT-REPORT" + "|" + start, amount, nonce, ts, tail);
    DepositMiddle("J41-DEPOSIT-REPORT" + "|", start, "Amt:" + amount, "Nonce:" + nonce, "Ts:" + ts, tail);
  }

  lemma DeliverJoined(jobHash: string, deliveryHash: string, ts: string)
    ensures BuildDeliverMessage(jobHash, deliveryHash, ts) ==
      "J41-DELIVER" + "|" + JoinWith(["Job:" + jobHash, "Delivery:" + deliveryHash, "Ts:" + ts, DELIVER_TAIL], "|")
  {
    Join4("Job:" + jobHash, "Delivery:" + deliveryHash, "Ts:" + ts, DELIVER_TAIL);
  }

  lemma DisputeJoined(jobHash: string, reason: string, ts: string)
    ensures BuildDisputeMessage(jobHash, reason, ts) ==
      "J41-DISPUTE" + "|" + JoinWith(["Job:" + jobHash, "Reason:" + reason, "Ts:" + ts, DISPUTE_TAIL], "|")
  {
    Join4("Job:" + jobHash, "Reason:" + reason, "Ts:" + ts, DISPUTE_TAIL);
  }

  lemma RespondJoined(jobHash: string, action: string, ts: string)
    ensures BuildDisputeRespondMessage(jobHash, action, ts) ==
      "J41-DISPUTE-RESPOND" + "|" + JoinWith(["Job:" + Short(jobHash), "Action:" + action, "Ts:" + ts], "|")
  {
    Join3("Job:" + Short(jobHash), "Action:" + action, "Ts:" + ts);
  }

  lemma ReworkJoined(jobHash: string, ts: string)
    ensures BuildReworkAcceptMessage(jobHash, ts) ==
      "J41-REWORK-ACCEPT" + "|" + JoinWith(["Job:" + Short(jobHash), "Ts:" + ts], "|")
  {
    Join2("Job:" + Short(jobHash), "Ts:" + ts);
  }

  lemma CompleteJoined(jobHash: string, ts: string)
    ensures BuildCompleteMessage(jobHash, ts) ==
      "J41-COMPLETE" + "|" + JoinWith(["Job:" + jobHash, "Ts:" + ts, COMPLETE_TAIL], "|")
  {
    Join3("Job:" + jobHash, "Ts:" + ts, COMPLETE_TAIL);
  }

  lemma ApplyJoined(bountyId: string, ts: string)
    ensures BuildApplyBountyMessage(bountyId, ts) ==
      "J41-BOUNTY-APPLY" + "|" + JoinWith(["Bounty:" + bountyId, "Ts:" + ts], "|")
  {
    Join2("Bounty:" + bountyId, "Ts:" + ts);
  }

  lemma SelectJoined(bountyId: string, selected: string, ts: string)
    ensures BuildSelectClaimantsMessage(bountyId, selected, ts) ==
      "J41-BOUNTY-SELECT" + "|" + JoinWith(["Bounty:" + bountyId, "Selected:" + selected, "Ts:" + ts], "|")
  {
    Join3("Bounty:" + bountyId, "Selected:" + selected, "Ts:" + ts);
  }

  /** Every template is its head and its labelled parts between pipes. */
  lemma BuildIsJoined(m: Message)
    ensures Build(m) == Joined(m)
  {
    var ts := Decimal(m.timestamp);
    match m
    case Accept(jobHash, buyer, amount, currency, _) => AcceptJoined(jobHash, buyer, amount, currency, ts);
    case Deliver(jobHash, deliveryHash, _) => DeliverJoined(jobHash, deliveryHash, ts);
    case DisputeRespond(jobHash, action, _) => RespondJoined(jobHash, ActionText(action), ts);
    case ReworkAccept(jobHash, _) => ReworkJoined(jobHash, ts);
    case Complete(jobHash, _) => CompleteJoined(jobHash, ts);
    case Dispute(jobHash, reason, _) => DisputeJoined(jobHash, reason, ts);
    case PostBounty(title, amount, currency, _) => PostBountyJoined(title, amount, currency, ts);
    case ApplyBounty(bountyId, _) => ApplyJoined(bountyId, ts);
    case SelectClaimants(bountyId, ids, _) => SelectJoined(bountyId, JoinWith(ids, ","), ts);
    case DepositReport(buyer, seller, txid, amount, nonce, _) => DepositJoined(buyer, seller, txid, amount, nonce, ts);
  }

  // ---- splitting at separators ----

  predicate Free(s: string, c: char) { forall i :: 0 <= i < |s| ==> s[i] != c }

  lemma ShorterFront(a: string, x: string, b: string, y: string, c: char)
    requires a + [c] + x == b + [c] + y
    ensures |a| < |b| ==> b[|a|] == c
    ensures |a| < |b| ==> x[|b| - |a| - 1] == c
    ensures |a| == |b| ==> a == b && x == y
  {
    var s := a + [c] + x;
    if |a| < |b| {
      assert s[|a|] == b[|a|];
      assert s[|b|] == x[|b| - |a| - 1];
    } else if |a| == |b| {
      assert a == s[..|a|] && x == s[|a| + 1..];
    }
  }

  lemma FirstSeparator(a: string, x: string, b: string, y: string, c: char)
    requires Free(a, c) && Free(b, c) && a + [c] + x == b + [c] + y
    ensures a == b && x == y
  {
    ShorterFront(a, x, b, y, c);
    ShorterFront(b, y, a, x, c);
  }

  lemma LastSeparator(a: string, x: string, b: string, y: string, c: char)
    requires Free(x, c) && Free(y, c) && a + [c] + x == b + [c] + y
    ensures a == b && x == y
  {
    ShorterFront(a, x, b, y, c);
    ShorterFront(b, y, a, x, c);
  }

  lemma {:induction false} JoinLast(parts: seq<string>, sep: string)
    requires |parts| >= 2
    ensures JoinWith(parts, sep) == JoinWith(parts[..|parts| - 1], sep) + sep + parts[|parts| - 1]
  {
    var n := |parts| - 1;
    if n > 1 {
      JoinLast(parts[1..], sep);
      assert parts[1..][..n - 1] == parts[..n][1..];
    } else {
      assert parts[1..] == [parts[1]] && parts[..1] == [parts[0]];
    }
  }

  /** All parts but the k-th are free of the separator. */
  predicate FreeBut(parts: seq<string>, k: nat, c: char) {
    forall i :: 0 <= i < |parts| && i != k ==> Free(parts[i], c)
  }

  /** A join determines its parts even if one of them holds the separator. */
  lemma {:induction false} JoinIsInjective(a: seq<string>, b: seq<string>, k: nat, c: char)
    requires |a| == |b| && k < |a| && FreeBut(a, k, c) && FreeBut(b, k, c)
    requires JoinWith(a, [c]) == JoinWith(b, [c])
    ensures a == b
  {
    var n := |a| - 1;
    if n == 0 {
      assert a == [a[0]] && b == [b[0]];
    } else if k > 0 {
      FirstSeparator(a[0], JoinWith(a[1..], [c]), b[0], JoinWith(b[1..], [c]), c);
      JoinIsInjective(a[1..], b[1..], k - 1, c);
      assert a == [a[0]] + a[1..] && b == [b[0]] + b[1..];
    } else {
      JoinLast(a, [c]);
      JoinLast(b, [c]);
      LastSeparator(JoinWith(a[..n], [c]), a[n], JoinWith(b[..n], [c]), b[n], c);
      JoinIsInjective(a[..n], b[..n], 0, c);
      assert a == a[..n] + [a[n]] && b == b[..n] + [b[n]];
    }
  }

  // ---- what a message determines ----

  lemma HeadIsFree(m: Message)
    ensures Free(Head(m), '|')
  {
  }

  /** Whether two messages come from one builder. */
  predicate SameBuilder(m: Message, n: Message) {
    match m
    case Accept(_, _, _, _, _) => n.Accept?
    case Deliver(_, _, _) => n.Deliver?
    case DisputeRespond(_, _, _) => n.DisputeRespond?
    case ReworkAccept(_, _) => n.ReworkAccept?
    case Complete(_, _) => n.Complete?
    case Dispute(_, _, _) => n.Dispute?
    case PostBounty(_, _, _, _) => n.PostBounty?
    case ApplyBounty(_, _) => n.ApplyBounty?
    case SelectClaimants(_, _, _) => n.SelectClaimants?
    case DepositReport(_, _, _, _, _, _) => n.DepositReport?
  }

  /** Tells the heads apart: their length, and a letter where two are equally long. */
  lemma HeadsDiffer(m: Message, n: Message)
    requires Head(m) == Head(n)
    ensures SameBuilder(m, n)
  {
    assert |Head(m)| == |Head(n)|;
    assert Head(m)[4] == Head(n)[4];
    assert |Head(m)| > 11 ==> Head(m)[11] == Head(n)[11];
  }

  /** No two different builders ever print the same string, whatever their fields hold. */
  lemma BuildersNeverCollide(m: Message, n: Message)
    requires Build(m) == Build(n)
    ensures SameBuilder(m, n) && JoinWith(Parts(m), "|") == JoinWith(Parts(n), "|")
  {
    BuildIsJoined(m);
    BuildIsJoined(n);
    HeadIsFree(m);
    HeadIsFree(n);
    FirstSeparator(Head(m), JoinWith(Parts(m), "|"), Head(n), JoinWith(Parts(n), "|"), '|');
    HeadsDiffer(m, n);
  }

  lemma {:induction false} DecimalIsInjective(m: nat, n: nat)
    requires Decimal(m) == Decimal(n)
    ensures m == n
  {
    DecimalIsDigits(m / 10);
    DecimalIsDigits(n / 10);
    if m >= 10 && n >= 10 {
      var k := |Decimal(m)| - 1;
      assert Decimal(m)[..k] == Decimal(m / 10) && Decimal(n)[..k] == Decimal(n / 10);
      DecimalIsInjective(m / 10, n / 10);
      assert Decimal(m)[k] == ('0' as int + m % 10) as char && Decimal(n)[k] == ('0' as int + n % 10) as char;
    } else {
      assert |Decimal(m)| == 1 <==> m < 10;
      assert |Decimal(n)| == 1 <==> n < 10;
    }
  }

  /** The part that may hold a pipe of its own: a dispute's reason, otherwise the first part. */
  function LoosePart(m: Message): nat { if m.Dispute? then 1 else 0 }

  /** No field but the loose one holds a pipe, an amount holds no blank, an applicant id no comma. */
  predicate Separable(m: Message) {
    match m
    case Accept(_, buyer, amount, currency, _) =>
      Free(buyer, '|') && Free(amount, '|') && Free(amount, ' ') && Free(currency, '|')
    case Deliver(_, deliveryHash, _) => Free(deliveryHash, '|')
    case DisputeRespond(_, _, _) => true
    case ReworkAccept(_, _) => true
    case Complete(_, _) => true
    case Dispute(jobHash, _, _) => Free(jobHash, '|')
    case PostBounty(_, amount, currency, _) => Free(amount, '|') && Free(currency, '|')
    case ApplyBounty(_, _) => true
    case SelectClaimants(_, ids, _) => forall i :: 0 <= i < |ids| ==> Free(ids[i], '|') && Free(ids[i], ',')
    case DepositReport(_, seller, txid, amount, nonce, _) =>
      Free(seller, '|') && Free(txid, '|') && Free(amount, '|') && Free(nonce, '|')
  }

  /** What a message says: hashes as far as they are printed, and no selection at all for a
      selection of one empty id. */
  function Canonical(m: Message): Message {
    match m
    case DisputeRespond(jobHash, action, ts) => DisputeRespond(Short(jobHash), action, ts)
    case ReworkAccept(jobHash, ts) => ReworkAccept(Short(jobHash), ts)
    case SelectClaimants(bountyId, ids, ts) => SelectClaimants(bountyId, if ids == [""] then [] else ids, ts)
    case _ => m
  }

  lemma {:induction false} JoinIsFree(parts: seq<string>, sep: string, c: char)
    requires Free(sep, c) && forall i :: 0 <= i < |parts| ==> Free(parts[i], c)
    ensures Free(JoinWith(parts, sep), c)
  {
    if |parts| > 1 { JoinIsFree(parts[1..], sep, c); }
  }

  lemma Labelled(name: string, s: string, c: char)
    requires Free(name, c) && Free(s, c)
    ensures Free(name + s, c)
  {
  }

  lemma TailsAreFree()
    ensures Free(ACCEPT_TAIL, '|') && Free(DELIVER_TAIL, '|') && Free(COMPLETE_TAIL, '|')
    ensures Free(DISPUTE_TAIL, '|') && Free(BOUNTY_TAIL, '|') && Free(DEPOSIT_TAIL, '|')
  {
    Labelled("I accept this job and commit ", "to delivering the work.", '|');
    Labelled("I have delivered ", "the work for this job.", '|');
    Labelled("I confirm the work has been ", "delivered satisfactorily.", '|');
    Labelled("I am raising a dispute ", "on this job.", '|');
    Labelled("I commit to funding ", "this bounty.", '|');
    Labelled("I attest I sent this deposit ", "and claim its credit.", '|');
  }

  lemma AcceptPartsAreFree(m: Message)
    requires m.Accept? && Separable(m)
    ensures FreeBut(Parts(m), 0, '|')
  {
    TailsAreFree();
    DecimalIsDigits(m.timestamp);
    Labelled("Buyer:", m.buyer, '|');
    Labelled(m.amount, " ", '|');
    Labelled(m.amount + " ", m.currency, '|');
    Labelled("Amt:", m.amount + " " + m.currency, '|');
    Labelled("Ts:", Decimal(m.timestamp), '|');
  }

  lemma SelectPartsAreFree(m: Message)
    requires m.SelectClaimants? && Separable(m)
    ensures FreeBut(Parts(m), 0, '|')
  {
    DecimalIsDigits(m.timestamp);
    JoinIsFree(m.applicantIds, ",", '|');
    Labelled("Selected:", JoinWith(m.applicantIds, ","), '|');
    Labelled("Ts:", Decimal(m.timestamp), '|');
  }

  lemma DepositPartsAreFree(m: Message)
    requires m.DepositReport? && Separable(m)
    ensures FreeBut(Parts(m), 0, '|')
  {
    TailsAreFree();
    DecimalIsDigits(m.timestamp);
    Labelled("Ts:", Decimal(m.timestamp), '|');
  }

  lemma BountyPartsAreFree(m: Message)
    requires (m.PostBounty? || m.ApplyBounty?) && Separable(m)
    ensures FreeBut(Parts(m), 0, '|')
  {
    TailsAreFree();
    DecimalIsDigits(m.timestamp);
    Labelled("Ts:", Decimal(m.timestamp), '|');
  }

  lemma JobPartsAreFree(m: Message)
    requires (m.Deliver? || m.DisputeRespond? || m.ReworkAccept? || m.Complete? || m.Dispute?) && Separable(m)
    ensures FreeBut(Parts(m), LoosePart(m), '|')
  {
    TailsAreFree();
    DecimalIsDigits(m.timestamp);
    Labelled("Ts:", Decimal(m.timestamp), '|');
  }

  lemma PartsAreFree(m: Message)
    requires Separable(m)
    ensures FreeBut(Parts(m), LoosePart(m), '|')
  {
    match m
    case Accept(_, _, _, _, _) => AcceptPartsAreFree(m);
    case SelectClaimants(_, _, _) => SelectPartsAreFree(m);
    case DepositReport(_, _, _, _, _, _) => DepositPartsAreFree(m);
    case PostBounty(_, _, _, _) => BountyPartsAreFree(m);
    case ApplyBounty(_, _) => BountyPartsAreFree(m);
    case _ => JobPartsAreFree(m);
  }

  lemma JoinHoldsSeparator(a: seq<string>, c: char)
    requires |a| >= 2
    ensures !Free(JoinWith(a, [c]), c)
  {
    assert JoinWith(a, [c])[|a[0]|] == c;
  }

  /** Separator-free ids are recovered from their join, but for none and one empty id. */
  lemma {:induction false} IdsFromJoin(a: seq<string>, b: seq<string>, c: char)
    requires (forall i :: 0 <= i < |a| ==> Free(a[i], c)) && (forall i :: 0 <= i < |b| ==> Free(b[i], c))
    requires JoinWith(a, [c]) == JoinWith(b, [c])
    ensures (if a == [""] then [] else a) == if b == [""] then [] else b
  {
    if |a| >= 2 && |b| >= 2 {
      FirstSeparator(a[0], JoinWith(a[1..], [c]), b[0], JoinWith(b[1..], [c]), c);
      IdsFromJoin(a[1..], b[1..], c);
      assert a == [a[0]] + a[1..] && b == [b[0]] + b[1..];
    } else if |a| >= 2 {
      JoinHoldsSeparator(a, c);
    } else if |b| >= 2 {
      JoinHoldsSeparator(b, c);
    }
  }

  lemma LabelDropped(name: string, a: string, b: string)
    requires name + a == name + b
    ensures a == b
  {
    assert (name + a)[|name|..] == a && (name + b)[|name|..] == b;
  }

  lemma TimestampFromText(m: nat, n: nat)
    requires "Ts:" + Decimal(m) == "Ts:" + Decimal(n)
    ensures m == n
  {
    LabelDropped("Ts:", Decimal(m), Decimal(n));
    DecimalIsInjective(m, n);
  }

  lemma ActionFromText(a: Action, b: Action)
    requires ActionText(a) == ActionText(b)
    ensures a == b
  {
    assert ActionText(a)[|ActionText(a)| - 1] == ActionText(b)[|ActionText(b)| - 1];
  }

  predicate FromJob(m: Message) { m.Deliver? || m.DisputeRespond? || m.ReworkAccept? || m.Complete? || m.Dispute? }

  lemma JobFieldsFromParts(m: Message, n: Message)
    requires FromJob(m) && SameBuilder(m, n) && Parts(m) == Parts(n)
    ensures Canonical(m) == Canonical(n)
  {
    var p, q := Parts(m), Parts(n);
    assert p[0] == q[0] && p[1] == q[1];
    if m.Deliver? {
      assert p[2] == q[2];
      LabelDropped("Job:", m.jobHash, n.jobHash);
      LabelDropped("Delivery:", m.deliveryHash, n.deliveryHash);
    } else if m.DisputeRespond? {
      assert p[2] == q[2];
      LabelDropped("Job:", Short(m.jobHash), Short(n.jobHash));
      LabelDropped("Action:", ActionText(m.action), ActionText(n.action));
      ActionFromText(m.action, n.action);
    } else if m.ReworkAccept? {
      LabelDropped("Job:", Short(m.jobHash), Short(n.jobHash));
    } else if m.Complete? {
      LabelDropped("Job:", m.jobHash, n.jobHash);
    } else {
      assert p[2] == q[2];
      LabelDropped("Job:", m.jobHash, n.jobHash);
      LabelDropped("Reason:", m.reason, n.reason);
    }
    TimestampFromText(m.timestamp, n.timestamp);
  }

  lemma BountyFieldsFromParts(m: Message, n: Message)
    requires (m.PostBounty? || m.ApplyBounty? || m.SelectClaimants?) && SameBuilder(m, n) && Parts(m) == Parts(n)
    requires Separable(m) && Separable(n)
    ensures Canonical(m) == Canonical(n)
  {
    var p, q := Parts(m), Parts(n);
    assert p[0] == q[0] && p[1] == q[1];
    if m.PostBounty? {
      assert p[2] == q[2] && p[3] == q[3];
      LabelDropped("Post:", m.title, n.title);
      LabelDropped("Amount:", m.amount, n.amount);
      LabelDropped("Currency:", m.currency, n.currency);
    } else {
      LabelDropped("Bounty:", m.bountyId, n.bountyId);
      if m.SelectClaimants? {
        assert p[2] == q[2];
        LabelDropped("Selected:", JoinWith(m.applicantIds, ","), JoinWith(n.applicantIds, ","));
        IdsFromJoin(m.applicantIds, n.applicantIds, ',');
      }
    }
    TimestampFromText(m.timestamp, n.timestamp);
  }

  lemma AcceptFieldsFromParts(m: Message, n: Message)
    requires m.Accept? && n.Accept? && Parts(m) == Parts(n) && Separable(m) && Separable(n)
    ensures m == n
  {
    var p, q := Parts(m), Parts(n);
    assert p[0] == q[0] && p[1] == q[1] && p[2] == q[2] && p[3] == q[3];
    LabelDropped("Job:", m.jobHash, n.jobHash);
    LabelDropped("Buyer:", m.buyer, n.buyer);
    LabelDropped("Amt:", m.amount + " " + m.currency, n.amount + " " + n.currency);
    FirstSeparator(m.amount, m.currency, n.amount, n.currency, ' ');
    TimestampFromText(m.timestamp, n.timestamp);
  }

  lemma DepositFieldsFromParts(m: Message, n: Message)
    requires m.DepositReport? && n.DepositReport? && Parts(m) == Parts(n)
    ensures m == n
  {
    var p, q := Parts(m), Parts(n);
    assert p[0] == q[0] && p[1] == q[1] && p[2] == q[2] && p[3] == q[3] && p[4] == q[4] && p[5] == q[5];
    LabelDropped("Buyer:", m.buyer, n.buyer);
    LabelDropped("Seller:", m.seller, n.seller);
    LabelDropped("Txid:", m.txid, n.txid);
    LabelDropped("Amt:", m.amount, n.amount);
    LabelDropped("Nonce:", m.nonce, n.nonce);
    TimestampFromText(m.timestamp, n.timestamp);
  }

  lemma FieldsFromParts(m: Message, n: Message)
    requires SameBuilder(m, n) && Parts(m) == Parts(n) && Separable(m) && Separable(n)
    ensures Canonical(m) == Canonical(n)
  {
    match m
    case Accept(_, _, _, _, _) => AcceptFieldsFromParts(m, n);
    case DepositReport(_, _, _, _, _, _) => DepositFieldsFromParts(m, n);
    case PostBounty(_, _, _, _) => BountyFieldsFromParts(m, n);
    case ApplyBounty(_, _) => BountyFieldsFromParts(m, n);
    case SelectClaimants(_, _, _) => BountyFieldsFromParts(m, n);
    case _ => JobFieldsFromParts(m, n);
  }

  /** Two separable messages print the same string exactly if they say the same: same builder,
      same fields, job hashes compared as far as they are printed. */
  lemma MessagesAreUnambiguous(m: Message, n: Message)
    requires Separable(m) && Separable(n)
    ensures Build(m) == Build(n) <==> Canonical(m) == Canonical(n)
  {
    if Build(m) == Build(n) {
      BuildersNeverCollide(m, n);
      PartsAreFree(m);
      PartsAreFree(n);
      JoinIsInjective(Parts(m), Parts(n), LoosePart(m), '|');
      FieldsFromParts(m, n);
    }
    if Canonical(m) == Canonical(n) {
      SamePartsFromCanonical(m, n);
      BuildIsJoined(m);
      BuildIsJoined(n);
    }
  }

  lemma SamePartsFromCanonical(m: Message, n: Message)
    requires Canonical(m) == Canonical(n)
    ensures Head(m) == Head(n) && Parts(m) == Parts(n)
  {
    if m.SelectClaimants? {
      assert JoinWith([""], ",") == "" && JoinWith([], ",") == "";
      assert JoinWith(m.applicantIds, ",") == JoinWith(n.applicantIds, ",");
    }
  }

  /** Selecting nobody and selecting one empty id are signed alike. */
  lemma EmptySelectionIsAmbiguous(bountyId: string, timestamp: nat)
    ensures Build(SelectClaimants(bountyId, [], timestamp)) == Build(SelectClaimants(bountyId, [""], timestamp))
  {
    assert JoinWith([""], ",") == "";
  }

  /** Both texts end before place i, or have the same character there. */
  predicate AgreeAt(a: string, b: string, i: nat) { (i < |a| <==> i < |b|) && (i < |a| && i < |b| ==> a[i] == b[i]) }

  /** The first sixteen characters of both texts are the same. */
  predicate AgreeTo16(a: string, b: string) { forall i :: 0 <= i < 16 ==> AgreeAt(a, b, i) }

  lemma ShortAgrees(a: string, b: string)
    ensures Short(a) == Short(b) <==> AgreeTo16(a, b)
  {
    if AgreeTo16(a, b) {
      if |a| < 16 { assert AgreeAt(a, b, |a|); }
      if |b| < 16 { assert AgreeAt(a, b, |b|); }
      forall i | 0 <= i < |Short(a)| ensures Short(a)[i] == Short(b)[i] { assert AgreeAt(a, b, i); }
    }
    if Short(a) == Short(b) {
      forall i | 0 <= i < 16 ensures AgreeAt(a, b, i) {
        assert i < |a| <==> i < |Short(a)|;
        assert i < |b| <==> i < |Short(b)|;
        assert i < |a| && i < |b| ==> Short(a)[i] == a[i] && Short(b)[i] == b[i];
      }
    }
  }

  /** The answers to a dispute bind the first sixteen characters of a job hash, and no more. */
  lemma DisputeAnswersBind16(a: string, b: string, action: Action, timestamp: nat)
    ensures Build(ReworkAccept(a, timestamp)) == Build(ReworkAccept(b, timestamp)) <==> AgreeTo16(a, b)
    ensures Build(DisputeRespond(a, action, timestamp)) == Build(DisputeRespond(b, action, timestamp)) <==> AgreeTo16(a, b)
  {
    ShortAgrees(a, b);
    MessagesAreUnambiguous(ReworkAccept(a, timestamp), ReworkAccept(b, timestamp));
    MessagesAreUnambiguous(DisputeRespond(a, action, timestamp), DisputeRespond(b, action, timestamp));
  }

  // ---- the guard ----

  datatype Refusal = FormatCharacters | ProtocolMessage

  predicate IsFormatCharacter(c: char) {
    var cp := c as int;
    0x200B <= cp <= 0x200F || cp == 0x2028 || cp == 0x2029 || cp == 0x2060 || cp == 0xFEFF
  }

  function PlainDash(c: char): char {
    var cp := c as int;
    if 0x2010 <= cp <= 0x2015 || cp == 0x2212 then '-' else c
  }

  predicate IsActionCharacter(c: char) { 'a' <= c <= 'z' || 'A' <= c <= 'Z' || '0' <= c <= '9' || c == '-' }

  /** j41- in any case, action characters, a pipe. */
  predicate LooksLikeProtocol(head: string) {
    && |head| >= 4
    && (head[0] == 'j' || head[0] == 'J') && head[1] == '4' && head[2] == '1' && head[3] == '-'
    && exists n :: 4 <= n < |head| && head[n] == '|' && forall i :: 4 <= i < n ==> IsActionCharacter(head[i])
  }

  /** assertNotProtocolMessage, over the compatibility normal form of Unicode. */
  function Guard(nfkc: string -> string, text: string): Option<Refusal> {
    if exists i :: 0 <= i < |text| && IsFormatCharacter(text[i]) then Some(FormatCharacters)
    else if LooksLikeProtocol(TrimStart(Map(PlainDash, nfkc(text)))) then Some(ProtocolMessage)
    else None
  }

  predicate Ascii(s: string) { forall i :: 0 <= i < |s| ==> s[i] as int < 128 }

  /** What the guard relies on: normalization leaves an ASCII text alone, and an ASCII start up to a
      pipe too, as nothing composes with a pipe. */
  ghost predicate KeepsAsciiHeads(nfkc: string -> string) {
    && (forall s :: Ascii(s) ==> nfkc(s) == s)
    && (forall p, s :: Ascii(p) ==> p + "|" <= nfkc(p + "|" + s))
  }

  /** J41- and action characters. */
  predicate IsHead(h: string) {
    && |h| >= 4 && h[0] == 'J' && h[1] == '4' && h[2] == '1' && h[3] == '-'
    && forall i :: 4 <= i < |h| ==> IsActionCharacter(h[i])
  }

  lemma EveryHeadIsOne(m: Message)
    ensures IsHead(Head(m))
  {
  }

  lemma HeadIsProtocol(h: string, rest: string)
    requires IsHead(h)
    ensures LooksLikeProtocol(h + "|" + rest)
  {
    var text, n := h + "|" + rest, |h|;
    assert text[n] == '|';
    assert forall i :: 0 <= i < n ==> text[i] == h[i];
  }

  lemma GuardSeesHead(text: string, h: string)
    requires IsHead(h) && h + "|" <= text
    ensures LooksLikeProtocol(TrimStart(Map(PlainDash, text)))
  {
    var front, dashed := h + "|", Map(PlainDash, text);
    forall i | 0 <= i < |front| ensures dashed[i] == front[i] {
      assert text[i] == front[i];
      if 4 <= i < |h| { assert IsActionCharacter(h[i]); }
    }
    assert dashed == front + dashed[|front|..];
    HeadIsProtocol(h, dashed[|front|..]);
    assert dashed[0] == 'J';
    assert TrimStart(dashed) == dashed;
  }

  lemma GuardRefusesHead(nfkc: string -> string, h: string, rest: string)
    requires KeepsAsciiHeads(nfkc) && IsHead(h)
    ensures Guard(nfkc, h + "|" + rest).Some?
  {
    assert Ascii(h) by {
      forall i | 0 <= i < |h| ensures h[i] as int < 128 { assert i < 4 || IsActionCharacter(h[i]); }
    }
    GuardSeesHead(nfkc(h + "|" + rest), h);
  }

  /** The guard refuses whatever any builder prints, whatever its fields hold. */
  lemma GuardRefusesEveryMessage(nfkc: string -> string, m: Message)
    requires KeepsAsciiHeads(nfkc)
    ensures Guard(nfkc, Build(m)).Some?
  {
    BuildIsJoined(m);
    EveryHeadIsOne(m);
    GuardRefusesHead(nfkc, Head(m), JoinWith(Parts(m), "|"));
  }

  /** j41- in any case and action characters. */
  predicate IsHeadInAnyCase(h: string) {
    && |h| >= 4 && (h[0] == 'j' || h[0] == 'J') && h[1] == '4' && h[2] == '1' && h[3] == '-'
    && forall i :: 4 <= i < |h| ==> IsActionCharacter(h[i])
  }

  /** White space, a head and a pipe, and then anything. */
  ghost predicate StartsLikeProtocol(text: string) {
    exists space: string, h: string, rest: string ::
      (forall i :: 0 <= i < |space| ==> IsSpace(space[i])) && IsHeadInAnyCase(h) && text == space + (h + "|" + rest)
  }

  lemma {:induction false} SpacesBefore(space: string, tail: string)
    requires (forall i :: 0 <= i < |space| ==> IsSpace(space[i])) && tail != [] && !IsSpace(tail[0])
    ensures TrimStart(space + tail) == tail
  {
    if space == [] {
      assert space + tail == tail;
    } else {
      SpacesBefore(space[1..], tail);
      assert (space + tail)[1..] == space[1..] + tail;
    }
  }

  lemma {:induction false} SpacesAreSpaces(t: string)
    ensures forall i :: 0 <= i < Spaces(t) ==> IsSpace(t[i])
  {
    if t != [] && IsSpace(t[0]) {
      SpacesAreSpaces(t[1..]);
      forall i | 0 <= i < Spaces(t) ensures IsSpace(t[i]) { if i > 0 { assert t[i] == t[1..][i - 1]; } }
    }
  }

  lemma LooksIsHead(t: string)
    ensures LooksLikeProtocol(t) <==> exists h: string, rest: string :: IsHeadInAnyCase(h) && t == h + "|" + rest
  {
    if LooksLikeProtocol(t) {
      var n :| 4 <= n < |t| && t[n] == '|' && forall i :: 4 <= i < n ==> IsActionCharacter(t[i]);
      assert t == t[..n] + "|" + t[n + 1..];
      assert IsHeadInAnyCase(t[..n]);
    }
    if h: string, rest: string :| IsHeadInAnyCase(h) && t == h + "|" + rest {
      assert t[|h|] == '|' && forall i :: 0 <= i < |h| ==> t[i] == h[i];
    }
  }

  lemma ProtocolStart(text: string)
    requires LooksLikeProtocol(TrimStart(text))
    ensures StartsLikeProtocol(text)
  {
    var n := Spaces(text);
    SpacesAreSpaces(text);
    LooksIsHead(text[n..]);
    var h: string, rest: string :| IsHeadInAnyCase(h) && text[n..] == h + "|" + rest;
    assert text == text[..n] + (h + "|" + rest);
  }

  lemma StartIsProtocol(text: string)
    requires StartsLikeProtocol(text)
    ensures LooksLikeProtocol(TrimStart(text))
  {
    var space: string, h: string, rest: string :|
      (forall i :: 0 <= i < |space| ==> IsSpace(space[i])) && IsHeadInAnyCase(h) && text == space + (h + "|" + rest);
    SpacesBefore(space, h + "|" + rest);
    LooksIsHead(h + "|" + rest);
  }

  lemma AsciiIsPlain(text: string)
    requires Ascii(text)
    ensures Map(PlainDash, text) == text && forall i :: 0 <= i < |text| ==> !IsFormatCharacter(text[i])
  {
  }

  /** Of ASCII texts the guard refuses exactly those that start like a protocol message, white space
      aside: challenges with j41- but no pipe pass. */
  lemma GuardExactly(nfkc: string -> string, text: string)
    requires KeepsAsciiHeads(nfkc) && Ascii(text)
    ensures Guard(nfkc, text) == if StartsLikeProtocol(text) then Some(ProtocolMessage) else None
  {
    AsciiIsPlain(text);
    if StartsLikeProtocol(text) { StartIsProtocol(text); }
    if LooksLikeProtocol(TrimStart(text)) { ProtocolStart(text); }
  }

  /** A text with a zero-width or format character is refused for it, whatever else it holds. */
  lemma GuardRefusesFormatCharacters(nfkc: string -> string, before: string, c: char, rest: string)
    requires c as int in {0x200B, 0x200C, 0x200D, 0x200E, 0x200F, 0x2028, 0x2029, 0x2060, 0xFEFF}
    ensures Guard(nfkc, before + [c] + rest) == Some(FormatCharacters)
  {
    var text := before + [c] + rest;
    assert text[|before|] == c;
  }

  /** assertConsentChallengeHash: 64 hex digits of either case. */
  predicate IsChallengeHash(s: string) {
    |s| == 64 && forall i :: 0 <= i < |s| ==> '0' <= s[i] <= '9' || 'a' <= s[i] <= 'f' || 'A' <= s[i] <= 'F'
  }

  /** The guard passes every challenge hash. */
  lemma GuardPassesChallengeHashes(nfkc: string -> string, challenge: string)
    requires KeepsAsciiHeads(nfkc) && IsChallengeHash(challenge)
    ensures Guard(nfkc, challenge).None?
  {
    assert Ascii(challenge);
    assert Map(PlainDash, challenge) == challenge;
    assert TrimStart(challenge) == challenge;
  }
}
