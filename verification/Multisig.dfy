/** Counting the signers of a multi-signature identity. */
module Multisig {
  import opened Prelude

  /** A minimum as resolved: a finite number, positive infinity - which an overlong JSON number
      yields - or anything else. */
  datatype Minimum = Finite(value: real) | Infinite | NotANumber

  datatype Keys = Keys(primaryAddresses: seq<string>, minimumSignatures: Minimum)

  /** How many signers it takes; no number of them is infinitely many. */
  datatype Threshold = AtLeast(n: real) | Unreachable

  /** The canonical verifier takes only finite positive minimums, and one signer otherwise. */
  function CanonicalThreshold(k: Keys): (t: Threshold)
    ensures t.AtLeast? && t.n > 0.0
  {
    if k.minimumSignatures.Finite? && k.minimumSignatures.value > 0.0 then AtLeast(k.minimumSignatures.value) else AtLeast(1.0)
  }

  /** The witness verifier takes every positive minimum, infinity among them. */
  function WitnessThreshold(k: Keys): (t: Threshold)
    ensures t.AtLeast? ==> t.n > 0.0
  {
    if k.minimumSignatures.Infinite? then Unreachable else CanonicalThreshold(k)
  }

  predicate Reaches(n: nat, t: Threshold) { t.AtLeast? && n as real >= t.n }

  /** The addresses some signature is valid for. */
  function Signers(addresses: seq<string>, signatures: seq<string>, valid: (string, string) -> bool): set<string> {
    set a | a in addresses && exists s :: s in signatures && valid(a, s)
  }

  /** What a threshold demands: enough different primary addresses signed. */
  predicate EnoughSigners(k: Keys, t: Threshold, signatures: seq<string>, valid: (string, string) -> bool) {
    Reaches(|Signers(k.primaryAddresses, signatures, valid)|, t)
  }

  /** A verification that throws counts as an invalid signature. */
  method SomeSignatureMatches(address: string, signatures: seq<string>, valid: (string, string) -> bool) returns (found: bool)
    ensures found <==> exists s :: s in signatures && valid(address, s)
  {
    for i := 0 to |signatures|
      invariant forall s :: s in signatures[..i] ==> !valid(address, s)
    {
      if valid(address, signatures[i]) { return true; }
    }
    return false;
  }

  lemma SubsetIsSmaller(a: set<string>, b: set<string>)
    requires a <= b
    ensures |a| <= |b|
  {
    assert b == a + (b - a);
  }

  lemma OneMoreAddress(addresses: seq<string>, i: nat, signatures: seq<string>, valid: (string, string) -> bool)
    requires i < |addresses|
    ensures Signers(addresses[..i + 1], signatures, valid) == Signers(addresses[..i], signatures, valid) +
      if exists s :: s in signatures && valid(addresses[i], s) then {addresses[i]} else {}
  {
    assert addresses[..i + 1] == addresses[..i] + [addresses[i]];
  }

  lemma FirstAddresses(addresses: seq<string>, n: nat, signatures: seq<string>, valid: (string, string) -> bool)
    requires n <= |addresses|
    ensures |Signers(addresses[..n], signatures, valid)| <= |Signers(addresses, signatures, valid)|
  {
    SubsetIsSmaller(Signers(addresses[..n], signatures, valid), Signers(addresses, signatures, valid));
  }

  /** verifyCanonicalSignatures: the loop over the addresses stops as soon as the threshold is met. */
  method VerifyCanonicalSignatures(signatures: seq<string>, resolved: Option<Keys>, valid: (string, string) -> bool)
    returns (ok: bool)
    ensures ok <==> resolved.Some? && EnoughSigners(resolved.value, CanonicalThreshold(resolved.value), signatures, valid)
  {
    if resolved.None? { return false; }
    var addresses, threshold := resolved.value.primaryAddresses, CanonicalThreshold(resolved.value);
    if signatures == [] || addresses == [] {
      assert Signers(addresses, signatures, valid) == {};
      return false;
    }
    var matched: set<string> := {};
    for i := 0 to |addresses|
      invariant matched == Signers(addresses[..i], signatures, valid)
      invariant !Reaches(|matched|, threshold)
    {
      var found := SomeSignatureMatches(addresses[i], signatures, valid);
      OneMoreAddress(addresses, i, signatures, valid);
      if found { matched := matched + {addresses[i]}; }
      if Reaches(|matched|, threshold) {
        FirstAddresses(addresses, i + 1, signatures, valid);
        return true;
      }
    }
    assert addresses[..|addresses|] == addresses;
    return false;
  }

  // ---- witnesses ----

  /** What a witness block decodes to; `heightClaimed` is the height beside the blob, if any. */
  datatype Witness = Witness(algorithm: string, version: int, signatures: seq<string>, blockHeight: int, heightClaimed: Option<int>)

  datatype Verdict =
    | Verified
    | UnsupportedAlgorithm
    | UnsupportedVersion
    | NoSignatures
    | HeightMismatch
    | Failed
    | NoSignerAddresses
    | Insufficient(found: nat, needed: Threshold)

  /** What the blob itself is refused for, before any key is looked up. */
  function Malformed(w: Witness): Option<Verdict> {
    if w.algorithm != "verusid-signdata-sha256" then Some(UnsupportedAlgorithm)
    else if w.version != 2 then Some(UnsupportedVersion)
    else if w.signatures == [] then Some(NoSignatures)
    else if w.heightClaimed.Some? && w.heightClaimed.value != w.blockHeight then Some(HeightMismatch)
    else None
  }

  /** verifyWitness, once the blob is parsed: the loop visits every address. */
  method VerifyWitness(w: Witness, resolved: Option<Keys>, valid: (string, string) -> bool) returns (v: Verdict)
    ensures Malformed(w).Some? ==> v == Malformed(w).value
    ensures v == Verified <==>
      Malformed(w).None? && resolved.Some? && EnoughSigners(resolved.value, WitnessThreshold(resolved.value), w.signatures, valid)
    ensures Malformed(w).None? && resolved.None? ==> v == Failed
    ensures v == NoSignerAddresses <==> Malformed(w).None? && resolved.Some? && resolved.value.primaryAddresses == []
    ensures v.Insufficient? ==>
      (&& resolved.Some? && v.needed == WitnessThreshold(resolved.value) && !Reaches(v.found, v.needed)
       && v.found == |Signers(resolved.value.primaryAddresses, w.signatures, valid)|)
  {
    if w.algorithm != "verusid-signdata-sha256" { return UnsupportedAlgorithm; }
    if w.version != 2 { return UnsupportedVersion; }
    if w.signatures == [] { return NoSignatures; }
    if w.heightClaimed.Some? && w.heightClaimed.value != w.blockHeight { return HeightMismatch; }
    if resolved.None? { return Failed; }
    var addresses, threshold := resolved.value.primaryAddresses, WitnessThreshold(resolved.value);
    if addresses == [] {
      assert Signers(addresses, w.signatures, valid) == {};
      return NoSignerAddresses;
    }
    var matched: set<string> := {};
    for i := 0 to |addresses|
      invariant matched == Signers(addresses[..i], w.signatures, valid)
    {
      var found := SomeSignatureMatches(addresses[i], w.signatures, valid);
      OneMoreAddress(addresses, i, w.signatures, valid);
      if found { matched := matched + {addresses[i]}; }
    }
    assert addresses[..|addresses|] == addresses;
    return if Reaches(|matched|, threshold) then Verified else Insufficient(|matched|, threshold);
  }

  /** Either verifier accepts exactly if as many different primary addresses signed as the minimum says,
      where a minimum that is no positive number asks for one, and an infinite one is read as one by
      the canonical verifier and never met by the other. */
  lemma AcceptanceExactly(k: Keys, signatures: seq<string>, valid: (string, string) -> bool)
    ensures var signers := |Signers(k.primaryAddresses, signatures, valid)| as real;
      var canonical := EnoughSigners(k, CanonicalThreshold(k), signatures, valid);
      var offChain := EnoughSigners(k, WitnessThreshold(k), signatures, valid);
      match k.minimumSignatures
      case Finite(m) => (m > 0.0 ==> (canonical <==> signers >= m) && (offChain <==> signers >= m))
                        && (m <= 0.0 ==> (canonical <==> signers >= 1.0) && (offChain <==> signers >= 1.0))
      case Infinite => (canonical <==> signers >= 1.0) && !offChain
      case NotANumber => (canonical <==> signers >= 1.0) && (offChain <==> signers >= 1.0)
  {
  }

  /** A blob is looked at only if it names the one algorithm and version two, holds a signature and
      does not contradict the height beside it; otherwise the first of these is the reason. */
  lemma MalformedExactly(w: Witness)
    ensures Malformed(w).None? <==>
      w.algorithm == "verusid-signdata-sha256" && w.version == 2 && |w.signatures| > 0
      && (w.heightClaimed.None? || w.heightClaimed.value == w.blockHeight)
    ensures Malformed(w) == Some(UnsupportedAlgorithm) <==> w.algorithm != "verusid-signdata-sha256"
    ensures Malformed(w) == Some(UnsupportedVersion) ==> w.version != 2
    ensures Malformed(w) == Some(NoSignatures) ==> w.version == 2 && |w.signatures| == 0
    ensures Malformed(w) == Some(HeightMismatch) ==> w.version == 2 && |w.signatures| > 0 && w.heightClaimed.Some?
  {
  }

  /** The two verifiers accept the same signatures of an identity exactly if its minimum is not
      infinite or it has no address: at an infinite one the first takes a single signer, the second
      none at all. */
  lemma VerifiersAgreeExactly(k: Keys)
    ensures (forall signatures, valid ::
               EnoughSigners(k, CanonicalThreshold(k), signatures, valid) <==> EnoughSigners(k, WitnessThreshold(k), signatures, valid))
      <==> k.minimumSignatures != Infinite || k.primaryAddresses == []
  {
    if k.primaryAddresses != [] {
      var all := (a: string, s: string) => true;
      SignersCanBeFound(k, [""], all);
      assert k.minimumSignatures == Infinite ==> !EnoughSigners(k, WitnessThreshold(k), [""], all);
    } else {
      forall signatures, valid ensures Signers(k.primaryAddresses, signatures, valid) == {} {}
    }
  }

  lemma SignersCanBeFound(k: Keys, signatures: seq<string>, valid: (string, string) -> bool)
    requires k.primaryAddresses != [] && signatures != [] && forall a, s :: valid(a, s)
    ensures EnoughSigners(k, AtLeast(1.0), signatures, valid)
  {
    assert valid(k.primaryAddresses[0], signatures[0]);
    assert signatures[0] in signatures && k.primaryAddresses[0] in Signers(k.primaryAddresses, signatures, valid);
  }

  /** Acceptance depends neither on the order nor on repetitions of addresses and signatures, and
      more signatures or addresses never turn it down. */
  lemma AcceptanceIsMonotone(k: Keys, more: Keys, t: Threshold, signatures: seq<string>, moreSignatures: seq<string>,
                             valid: (string, string) -> bool)
    requires Elements(k.primaryAddresses) <= Elements(more.primaryAddresses)
    requires Elements(signatures) <= Elements(moreSignatures)
    requires EnoughSigners(k, t, signatures, valid)
    ensures EnoughSigners(more, t, moreSignatures, valid)
  {
    var a, b := Signers(k.primaryAddresses, signatures, valid), Signers(more.primaryAddresses, moreSignatures, valid);
    forall x | x in a ensures x in b {
      var s :| s in signatures && valid(x, s);
      assert x in Elements(k.primaryAddresses) && s in Elements(signatures);
    }
    SubsetIsSmaller(a, b);
  }

  /** One key signing several times counts once: with n different signers, n is the most any
      threshold may ask for, however many signatures there are. */
  lemma SignersBoundThreshold(k: Keys, t: Threshold, signatures: seq<string>, valid: (string, string) -> bool, signers: seq<string>)
    requires forall a, s :: s in signatures && valid(a, s) ==> a in signers
    ensures |Signers(k.primaryAddresses, signatures, valid)| <= |signers|
    ensures EnoughSigners(k, t, signatures, valid) ==> Reaches(|signers|, t)
  {
    SubsetIsSmaller(Signers(k.primaryAddresses, signatures, valid), Elements(signers));
    ElementsAtMost(signers);
  }

  lemma {:induction false} ElementsAtMost(s: seq<string>)
    ensures |Elements(s)| <= |s|
  {
    if s != [] {
      ElementsAtMost(s[..|s| - 1]);
      assert Elements(s) == Elements(s[..|s| - 1]) + {s[|s| - 1]};
    }
  }
}
