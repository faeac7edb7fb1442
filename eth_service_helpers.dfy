/** Fixed-point conversion between the decimal amounts the reports print and the
    integer amounts Ethereum contracts hold, and the sign of a transfer as seen
    from one address.

    An asset has a `multiplier` (the contract's number of decimals) and an
    `accuracy` (the decimals the asset is traded with).  The contract integer of
    a decimal amount x is trunc(x * 10^accuracy) * 10^(multiplier - accuracy):
    precision below 10^-accuracy is dropped.  The contract integer is the
    decimal text `BigInteger` prints and parses; it is modelled as the `int` it
    denotes. */
module EthServiceHelpers {
  import opened Common

  /** The `BigInteger` cast of a decimal: truncation toward zero. */
  function Trunc(x: real): (n: int)
    ensures 0.0 <= x ==> n as real <= x < n as real + 1.0
    ensures x < 0.0 ==> n as real - 1.0 < x <= n as real
  {
    if x >= 0.0 then x.Floor else -((-x).Floor)
  }

  /** `BigInteger` division: the quotient is truncated toward zero. */
  function TruncDiv(a: int, d: int): (q: int)
    requires d > 0
    ensures 0 <= a ==> q * d <= a < q * d + d
    ensures a < 0 ==> q * d - d < a <= q * d
  {
    if a >= 0 then a / d else -((-a) / d)
  }

  /** The conversion to the contract integer for a scale of `perUnit` = 10^accuracy
      steps per whole token and a contract unit of `unit` = 10^(multiplier - accuracy). */
  function ToUnits(amount: real, perUnit: nat, unit: nat): int
  {
    Trunc(amount * perUnit as real) * unit
  }

  /** The conversion back: whole contract units, then scaled down by `perUnit`. */
  function FromUnits(raw: int, perUnit: nat, unit: nat): real
    requires perUnit >= 1 && unit >= 1
  {
    TruncDiv(raw, unit) as real / perUnit as real
  }

  /** `EthServiceHelpers.ConvertToContract`: fails when the asset trades with more
      decimals than its contract holds. */
  function ConvertToContract(amount: real, multiplier: nat, accuracy: nat): (r: Result<int>)
    ensures r.Err? <==> accuracy > multiplier
  {
    if accuracy > multiplier then Err("accuracy > multiplier")
    else Ok(ToUnits(amount, Pow10(accuracy), Pow10(multiplier - accuracy)))
  }

  /** `EthServiceHelpers.ConvertFromContract`, with the same failure. */
  function ConvertFromContract(amount: int, multiplier: nat, accuracy: nat): (r: Result<real>)
    ensures r.Err? <==> accuracy > multiplier
  {
    if accuracy > multiplier then Err("accuracy > multiplier")
    else Ok(FromUnits(amount, Pow10(accuracy), Pow10(multiplier - accuracy)))
  }

  /** x has at most `accuracy` fractional digits. */
  predicate HasAtMostDigits(x: real, accuracy: nat)
  {
    (x * Pow10(accuracy) as real).Floor as real == x * Pow10(accuracy) as real
  }

  /** `cut` is `exact` with less than one `unit` removed toward zero. */
  predicate TowardZeroWithin(cut: real, exact: real, unit: real)
  {
    && (0.0 <= exact ==> cut <= exact < cut + unit)
    && (exact < 0.0 ==> cut - unit < exact <= cut)
  }

  // Arithmetic steps, each small enough for the solver on its own.

  lemma TruncOfIntegral(x: real)
    requires x.Floor as real == x
    ensures Trunc(x) as real == x
  {
    if x < 0.0 {
      assert (-x).Floor == -(x.Floor);
    }
  }

  lemma TruncOfInt(q: int)
    ensures Trunc(q as real) == q
  {
    assert (q as real).Floor == q;
    if q < 0 {
      assert (-(q as real)).Floor == -q;
    }
  }

  lemma MulAtLeast(x: int, d: int)
    requires x >= 1 && d > 0
    ensures x * d >= d
  {
    assert x * d == (x - 1) * d + d;
    assert (x - 1) * d >= 0;
  }

  lemma DivUnique(a: int, d: int, q: int)
    requires d > 0 && q * d <= a < q * d + d
    ensures a / d == q
  {
    var q', r' := a / d, a % d;
    assert a == q' * d + r';
    if q' > q {
      MulAtLeast(q' - q, d);
    } else if q' < q {
      MulAtLeast(q - q', d);
    }
  }

  lemma TruncDivOfMultiple(k: int, d: int)
    requires d > 0
    ensures TruncDiv(k * d, d) == k
  {
    if k >= 0 {
      assert k * d >= 0;
      DivUnique(k * d, d, k);
    } else {
      assert -(k * d) == (-k) * d;
      assert (-k) * d > 0;
      DivUnique((-k) * d, d, -k);
    }
  }

  lemma MulBelowPlus(x: real, k: real, u: real, ku: real)
    requires x < k + 1.0 && u > 0.0 && ku == k * u
    ensures x * u < ku + u
  {
    var d := k + 1.0 - x;
    assert d * u > 0.0;
    assert d * u == k * u + u - x * u;
  }

  lemma MulAboveMinus(x: real, k: real, u: real, ku: real)
    requires k - 1.0 < x && u > 0.0 && ku == k * u
    ensures ku - u < x * u
  {
    var d := x - k + 1.0;
    assert d * u > 0.0;
    assert d * u == x * u - k * u + u;
  }

  lemma MulLe(a: real, b: real, c: real)
    requires a <= b && c > 0.0
    ensures a * c <= b * c
  {
    assert (b - a) * c >= 0.0;
  }

  lemma SignOfScaled(a: real, p: real)
    requires p > 0.0
    ensures 0.0 <= a <==> 0.0 <= a * p
  {
    if a < 0.0 {
      assert (-a) * p > 0.0;
      assert a * p == -((-a) * p);
    }
  }

  lemma CastMul(a: int, b: int)
    ensures (a * b) as real == a as real * b as real
  {
  }

  /** Scaling a truncation by `pu` keeps it within one `pu` of the scaled value. */
  lemma ScaleGlue(amount: real, pa: real, pu: real, pm: real, x: real, sc: real, kr: real, rawr: real)
    requires pa > 0.0 && pu > 0.0 && pm == pa * pu && rawr == kr * pu
    requires x == amount * pa && sc == amount * pm
    requires 0.0 <= x ==> kr <= x < kr + 1.0
    requires x < 0.0 ==> kr - 1.0 < x <= kr
    ensures TowardZeroWithin(rawr, sc, pu)
  {
    assert amount * (pa * pu) == (amount * pa) * pu;
    SignOfScaled(x, pu);
    if 0.0 <= x {
      MulLe(kr, x, pu);
      MulBelowPlus(x, kr, pu, rawr);
    } else {
      MulAboveMinus(x, kr, pu, rawr);
      MulLe(x, kr, pu);
    }
  }

  lemma ScaleWhole(amount: real, a: nat, u: nat, m: nat, k: int)
    requires a >= 1 && u >= 1 && m == a * u
    requires 0.0 <= amount * a as real ==> k as real <= amount * a as real < k as real + 1.0
    requires amount * a as real < 0.0 ==> k as real - 1.0 < amount * a as real <= k as real
    ensures TowardZeroWithin((k * u) as real, amount * m as real, u as real)
  {
    CastMul(k, u);
    CastMul(a, u);
    ScaleGlue(amount, a as real, u as real, m as real, amount * a as real, amount * m as real, k as real, (k * u) as real);
  }

  lemma TruncScale(amount: real, a: nat, u: nat, m: nat)
    requires a >= 1 && u >= 1 && m == a * u
    ensures TowardZeroWithin((Trunc(amount * a as real) * u) as real, amount * m as real, u as real)
  {
    ScaleWhole(amount, a, u, m, Trunc(amount * a as real));
  }

  lemma ToUnitsOfWhole(x: real, perUnit: nat, unit: nat, q: int)
    requires x * perUnit as real == q as real
    ensures ToUnits(x, perUnit, unit) == q * unit
  {
    TruncOfInt(q);
  }

  // What the conversions promise.

  /** The contract integer is a whole number of contract units. */
  lemma ToUnitsMultiple(amount: real, perUnit: nat, unit: nat)
    requires unit >= 1
    ensures ToUnits(amount, perUnit, unit) % unit == 0
  {
    var k := Trunc(amount * perUnit as real);
    DivUnique(k * unit, unit, k);
  }

  /** The contract integer is the amount scaled by m = perUnit * unit
      (10^multiplier) with less than one contract unit cut off toward zero. */
  lemma ToUnitsScale(amount: real, perUnit: nat, unit: nat, m: nat)
    requires perUnit >= 1 && unit >= 1 && m == perUnit * unit
    ensures TowardZeroWithin(ToUnits(amount, perUnit, unit) as real, amount * m as real, unit as real)
  {
    assert ToUnits(amount, perUnit, unit) == Trunc(amount * perUnit as real) * unit;
    TruncScale(amount, perUnit, unit, m);
  }

  /** The decimal amount is a whole number of 1/perUnit steps: the contract
      integer's whole units. */
  lemma FromUnitsDigits(raw: int, perUnit: nat, unit: nat)
    requires perUnit >= 1 && unit >= 1
    ensures FromUnits(raw, perUnit, unit) * perUnit as real == TruncDiv(raw, unit) as real
  {
  }

  lemma UnitsRoundTrip(amount: real, perUnit: nat, unit: nat)
    requires perUnit >= 1 && unit >= 1
    requires (amount * perUnit as real).Floor as real == amount * perUnit as real
    ensures FromUnits(ToUnits(amount, perUnit, unit), perUnit, unit) == amount
  {
    var x := amount * perUnit as real;
    TruncOfIntegral(x);
    var k := Trunc(x);
    TruncDivOfMultiple(k, unit);
    assert ToUnits(amount, perUnit, unit) == k * unit;
    assert k as real / perUnit as real == amount;
  }

  lemma UnitsContractRoundTrip(raw: int, perUnit: nat, unit: nat)
    requires perUnit >= 1 && unit >= 1
    ensures ToUnits(FromUnits(raw, perUnit, unit), perUnit, unit) == TruncDiv(raw, unit) * unit
  {
    var x := FromUnits(raw, perUnit, unit);
    FromUnitsDigits(raw, perUnit, unit);
    ToUnitsOfWhole(x, perUnit, unit, TruncDiv(raw, unit));
  }

  /** The contract integer of any amount is a multiple of 10^(multiplier - accuracy). */
  lemma ConvertToContractMultiple(amount: real, multiplier: nat, accuracy: nat)
    requires accuracy <= multiplier
    ensures ConvertToContract(amount, multiplier, accuracy).value % Pow10(multiplier - accuracy) == 0
  {
    ToUnitsMultiple(amount, Pow10(accuracy), Pow10(multiplier - accuracy));
  }

  /** The decimal amount has at most `accuracy` fractional digits: it is the whole
      contract units, truncated toward zero, over 10^accuracy. */
  lemma ConvertFromContractDigits(amount: int, multiplier: nat, accuracy: nat)
    requires accuracy <= multiplier
    ensures ConvertFromContract(amount, multiplier, accuracy).value * Pow10(accuracy) as real
            == TruncDiv(amount, Pow10(multiplier - accuracy)) as real
    ensures HasAtMostDigits(ConvertFromContract(amount, multiplier, accuracy).value, accuracy)
  {
    FromUnitsDigits(amount, Pow10(accuracy), Pow10(multiplier - accuracy));
    IntegralFloor(ConvertFromContract(amount, multiplier, accuracy).value * Pow10(accuracy) as real,
                  TruncDiv(amount, Pow10(multiplier - accuracy)));
  }

  /** A real equal to an integer is its own floor. */
  lemma IntegralFloor(y: real, q: int)
    requires y == q as real
    ensures y.Floor as real == y
  {
    assert (q as real).Floor == q;
  }

  /** Round trip: an amount with at most `accuracy` fractional digits survives the
      conversion to the contract integer and back unchanged. */
  lemma RoundTrip(amount: real, multiplier: nat, accuracy: nat)
    requires accuracy <= multiplier
    requires HasAtMostDigits(amount, accuracy)
    ensures ConvertToContract(amount, multiplier, accuracy).Ok?
    ensures ConvertFromContract(ConvertToContract(amount, multiplier, accuracy).value, multiplier, accuracy) == Ok(amount)
  {
    UnitsRoundTrip(amount, Pow10(accuracy), Pow10(multiplier - accuracy));
  }

  /** The other direction: a contract integer comes back from the decimal amount
      rounded toward zero to a whole number of 10^(multiplier - accuracy) units. */
  lemma ContractRoundTrip(amount: int, multiplier: nat, accuracy: nat)
    requires accuracy <= multiplier
    ensures var unit := Pow10(multiplier - accuracy);
            ConvertToContract(ConvertFromContract(amount, multiplier, accuracy).value, multiplier, accuracy)
              == Ok(TruncDiv(amount, unit) * unit)
  {
    UnitsContractRoundTrip(amount, Pow10(accuracy), Pow10(multiplier - accuracy));
  }

  /** In particular a contract integer that is a whole number of units is kept exactly. */
  lemma ContractRoundTripExact(amount: int, multiplier: nat, accuracy: nat)
    requires accuracy <= multiplier
    requires amount % Pow10(multiplier - accuracy) == 0
    ensures ConvertToContract(ConvertFromContract(amount, multiplier, accuracy).value, multiplier, accuracy)
              == Ok(amount)
  {
    var unit := Pow10(multiplier - accuracy);
    ContractRoundTrip(amount, multiplier, accuracy);
    var k := amount / unit;
    assert amount == k * unit;
    TruncDivOfMultiple(k, unit);
  }

  /** The direction of a transfer for `address`: -1 outgoing, 0 a transfer to
      itself, 1 incoming.  Addresses compare case-insensitively; a null `from`
      or `to` equals only another null. */
  function CalculateSign(address: string, from: Option<string>, to: Option<string>): (sign: int)
    ensures -1 <= sign <= 1
    ensures sign == -1 <==> from.Some? && Lower(from.value) == Lower(address)
  {
    if LowerOpt(from) == Some(Lower(address)) then -1
    else if LowerOpt(from) == LowerOpt(to) then 0
    else 1
  }

  /** An outgoing transfer is reported as outgoing even when it is also a
      transfer from an address to itself. */
  lemma OutgoingTakesPrecedence(address: string, from: string)
    requires Lower(from) == Lower(address)
    ensures CalculateSign(address, Some(from), Some(from)) == -1
  {
  }

  /** Neither endpoint is the address: the sign is 0 exactly when both endpoints
      agree up to case, including both being null. */
  lemma NotOutgoingSign(address: string, from: Option<string>, to: Option<string>)
    requires !(from.Some? && Lower(from.value) == Lower(address))
    ensures CalculateSign(address, from, to) == 0 <==>
              (from.None? && to.None?) || (from.Some? && to.Some? && Lower(from.value) == Lower(to.value))
    ensures CalculateSign(address, from, to) != 0 ==> CalculateSign(address, from, to) == 1
  {
  }

  /** The sign depends on the three strings only up to case. */
  lemma SignIgnoresCase(address: string, from: Option<string>, to: Option<string>)
    ensures CalculateSign(Lower(address), LowerOpt(from), LowerOpt(to)) == CalculateSign(address, from, to)
  {
    LowerIdempotent(address);
    if from.Some? { LowerIdempotent(from.value); }
    if to.Some? { LowerIdempotent(to.value); }
  }
}
