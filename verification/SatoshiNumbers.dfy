/** A number codec that meets what the service codec asks for: exact multiples of one satoshi. */
module SatoshiNumbers {
  import opened Prelude
  import opened Texts
  import opened Vdxf
  import opened ServiceCodec

  const UNITS: real := 100000000.0

  predicate IsSatoshiAmount(x: real) { (x * UNITS).Floor as real == x * UNITS }

  function Signed(n: int): string { if n < 0 then "-" + Decimal(-n) else Decimal(n) }

  function Digit(c: char): nat { if '0' <= c <= '9' then c as int - '0' as int else 0 }

  function ReadDigits(s: string): nat {
    if s == [] then 0 else 10 * ReadDigits(s[..|s| - 1]) + Digit(s[|s| - 1])
  }

  function ReadSigned(s: string): int { if s != [] && s[0] == '-' then -(ReadDigits(s[1..]) as int) else ReadDigits(s) as int }

  function ReadAmount(v: Json): Option<real> {
    match v
    case Num(n) => Some(n as real)
    case Str(s) => Some(ReadSigned(s) as real / UNITS)
    case _ => None
  }

  function Amounts(): NumberCodec { NumberCodec(IsSatoshiAmount, x => Signed((x * UNITS).Floor), ReadAmount) }

  lemma {:induction false} DigitsReadBack(n: nat)
    ensures ReadDigits(Decimal(n)) == n
  {
    if n >= 10 {
      DigitsReadBack(n / 10);
      assert Decimal(n)[..|Decimal(n)| - 1] == Decimal(n / 10);
    } else {
      assert Decimal(n)[..0] == [];
    }
  }

  lemma SignedReadsBack(n: int)
    ensures ReadSigned(Signed(n)) == n
  {
    if n < 0 {
      DigitsReadBack(-n);
      assert Signed(n)[1..] == Decimal(-n);
    } else {
      DecimalIsDigits(n);
      DigitsReadBack(n);
    }
  }

  lemma AmountReadsBack(x: real)
    requires IsSatoshiAmount(x)
    ensures ReadAmount(Str(Signed((x * UNITS).Floor))) == Some(x)
  {
    SignedReadsBack((x * UNITS).Floor);
  }

  lemma WholeSatoshis(n: int)
    ensures IsSatoshiAmount(n as real / UNITS)
  {
    assert n as real / UNITS * UNITS == n as real;
  }

  lemma WholeCoins(n: int)
    ensures IsSatoshiAmount(n as real)
  {
    assert n as real * UNITS == (n * 100000000) as real;
  }

  /** The codec prints and reads back every amount in satoshis, whole coins among them. */
  lemma AmountsRoundTrip(n: int)
    ensures NumbersRoundTrip(Amounts())
    ensures Amounts().isNumber(n as real / UNITS) && Amounts().isNumber(n as real)
  {
    forall x: real | IsSatoshiAmount(x) ensures ReadAmount(Str(Amounts().text(x))) == Some(x) { AmountReadsBack(x); }
    WholeSatoshis(n);
    WholeCoins(n);
  }
}
