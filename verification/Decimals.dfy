/** Decimal and lot conversions of math.rs and the scale that `AmmInfo::initialize` picks for them. */
module Decimals {
  import opened Machine
  import opened Arith
  import opened Quotes

  function Pow10(n: nat): (p: nat)
    ensures p > 0
  {
    if n == 0 then 1 else 10 * Pow10(n - 1)
  }

  function NormalizeDecimalV2(val: u64, nativeDecimal: u64, sysDecimalValue: u64): Result<u128> {
    if Pow10(nativeDecimal) >= U128_LIMIT then Err(Panicked)
    else
      Mul64(val, sysDecimalValue);
      QuotientFits(val * sysDecimalValue, Pow10(nativeDecimal));
      Ok(val * sysDecimalValue / Pow10(nativeDecimal))
  }

  function RestoreDecimal(val: u128, nativeDecimal: u64, sysDecimalValue: u64): Result<u128> {
    if Pow10(nativeDecimal) >= U128_LIMIT || val * Pow10(nativeDecimal) >= U128_LIMIT || sysDecimalValue == 0
    then Err(Panicked)
    else
      MulLe(0, val, Pow10(nativeDecimal));
      QuotientFits(val * Pow10(nativeDecimal), sysDecimalValue);
      Ok(val * Pow10(nativeDecimal) / sysDecimalValue)
  }

  lemma QuotientFits(a: nat, b: nat)
    requires b > 0
    ensures 0 <= a / b <= a
  {
    FloorAdjoint(a, b, 0);
    FloorAdjoint(a, b, a + 1);
    MulLe(1, b, a + 1);
  }

  /** `convert_in_vol` and `convert_vol_out`, through lots as well. */
  function ConvertInVol(val: u64, coinDecimal: u64, coinLotSize: u64, sysDecimalValue: u64): Result<u64> {
    if Pow10(coinDecimal) >= U128_LIMIT || val * coinLotSize * sysDecimalValue >= U128_LIMIT then Err(Panicked)
    else
      Mul64(val, coinLotSize);
      MulLe(0, val * coinLotSize, sysDecimalValue);
      QuotientFits(val * coinLotSize * sysDecimalValue, Pow10(coinDecimal));
      var volume := val * coinLotSize * sysDecimalValue / Pow10(coinDecimal);
      if volume >= U64_LIMIT then Err(Panicked) else Ok(volume)
  }

  function ConvertVolOut(val: u64, coinDecimal: u64, coinLotSize: u64, sysDecimalValue: u64): Result<u64> {
    if Pow10(coinDecimal) >= U128_LIMIT || val * Pow10(coinDecimal) >= U128_LIMIT || coinLotSize * sysDecimalValue == 0
    then Err(Panicked)
    else
      MulLe(0, val, Pow10(coinDecimal));
      Mul64(coinLotSize, sysDecimalValue);
      QuotientFits(val * Pow10(coinDecimal), coinLotSize * sysDecimalValue);
      var volume := val * Pow10(coinDecimal) / (coinLotSize * sysDecimalValue);
      if volume >= U64_LIMIT then Err(Panicked) else Ok(volume)
  }

  /** The powers the scales are made of. */
  lemma Pow10Is(n: nat)
    ensures Pow10(0) == 1 && Pow10(1) == 10 && Pow10(n + 1) == 10 * Pow10(n)
    ensures Pow10(38) == 100000000000000000000000000000000000000 < U128_LIMIT < Pow10(39)
  {
    assert Pow10(10) == 10000000000 by {
      assert Pow10(5) == 100000;
    }
    assert Pow10(20) == 100000000000000000000 by {
      assert Pow10(15) == 1000000000000000;
    }
    assert Pow10(30) == 1000000000000000000000000000000 by {
      assert Pow10(25) == 10000000000000000000000000;
    }
    assert Pow10(35) == 100000000000000000000000000000000000;
  }

  /** `r` is a / b rounded down. */
  predicate IsFloor(r: int, a: int, b: int) {
    r * b <= a < (r + 1) * b
  }

  lemma FloorIs(a: nat, b: nat)
    requires b > 0
    ensures IsFloor(a / b, a, b)
  {
    FloorAdjoint(a, b, a / b);
    FloorAdjoint(a, b, a / b + 1);
  }

  /** Each conversion is a quotient rounded down, or panics where a product or the result overflows or
      the divisor is zero. */
  lemma NormalizeIs(v: u64, decimals: u64, scale: u64)
    ensures if Pow10(decimals) >= U128_LIMIT then NormalizeDecimalV2(v, decimals, scale) == Err(Panicked)
            else NormalizeDecimalV2(v, decimals, scale).Ok?
                 && IsFloor(NormalizeDecimalV2(v, decimals, scale).value, v * scale, Pow10(decimals))
  {
    Mul64(v, scale);
    FloorIs(v * scale, Pow10(decimals));
  }

  lemma RestoreIs(v: u128, decimals: u64, scale: u64)
    ensures if Pow10(decimals) >= U128_LIMIT || v * Pow10(decimals) >= U128_LIMIT || scale == 0
            then RestoreDecimal(v, decimals, scale) == Err(Panicked)
            else RestoreDecimal(v, decimals, scale).Ok?
                 && IsFloor(RestoreDecimal(v, decimals, scale).value, v * Pow10(decimals), scale)
  {
    if scale > 0 {
      MulLe(0, v, Pow10(decimals));
      FloorIs(v * Pow10(decimals), scale);
    }
  }

  lemma ConvertInVolIs(v: u64, decimals: u64, lot: u64, scale: u64)
    ensures if Pow10(decimals) >= U128_LIMIT || v * lot * scale >= U128_LIMIT
               || v * lot * scale >= U64_LIMIT * Pow10(decimals)
            then ConvertInVol(v, decimals, lot, scale) == Err(Panicked)
            else ConvertInVol(v, decimals, lot, scale).Ok?
                 && IsFloor(ConvertInVol(v, decimals, lot, scale).value, v * lot * scale, Pow10(decimals))
  {
    Mul64(v, lot);
    MulLe(0, v * lot, scale);
    FloorIs(v * lot * scale, Pow10(decimals));
    FloorAdjoint(v * lot * scale, Pow10(decimals), U64_LIMIT);
  }

  lemma ConvertVolOutIs(v: u64, decimals: u64, lot: u64, scale: u64)
    ensures if Pow10(decimals) >= U128_LIMIT || v * Pow10(decimals) >= U128_LIMIT || lot * scale == 0
               || v * Pow10(decimals) >= U64_LIMIT * (lot * scale)
            then ConvertVolOut(v, decimals, lot, scale) == Err(Panicked)
            else ConvertVolOut(v, decimals, lot, scale).Ok?
                 && IsFloor(ConvertVolOut(v, decimals, lot, scale).value, v * Pow10(decimals), lot * scale)
  {
    MulLe(0, v, Pow10(decimals));
    Mul64(lot, scale);
    if lot * scale > 0 {
      FloorIs(v * Pow10(decimals), lot * scale);
      FloorAdjoint(v * Pow10(decimals), lot * scale, U64_LIMIT);
    }
  }

  /** Scaling up by s / d and back, both rounded down, loses at most one, and nothing exactly when
      the scaled value is whole. */
  lemma ThereAndBack(v: nat, s: nat, d: nat)
    requires 0 < d <= s
    ensures var n := v * s / d;
            && n * d <= v * s
            && v - 1 <= n * d / s <= v
            && (n * d / s == v <==> v * s % d == 0)
  {
    var n := v * s / d;
    FloorAdjoint(v * s, d, n);
    FloorAdjoint(v * s, d, n + 1);
    FloorAdjoint(n * d, s, v);
    FloorAdjoint(n * d, s, v + 1);
    FloorAdjoint(n * d, s, v - 1);
    assert (n + 1) * d == n * d + d;
    assert (v + 1) * s == v * s + s && (v - 1) * s == v * s - s;
    assert v * s == n * d + v * s % d;
  }

  /** Normalizing to a scale at least as fine as the native one and restoring returns v or v - 1, and
      v exactly when the normalized value is whole. */
  lemma RestoreNormalizeIff(v: u64, decimals: u64, scale: u64)
    requires Pow10(decimals) <= scale
    ensures NormalizeDecimalV2(v, decimals, scale).Ok?
    ensures var n := NormalizeDecimalV2(v, decimals, scale).value;
            && RestoreDecimal(n, decimals, scale).Ok?
            && v - 1 <= RestoreDecimal(n, decimals, scale).value <= v
            && (RestoreDecimal(n, decimals, scale).value == v <==> v * scale % Pow10(decimals) == 0)
  {
    Mul64(v, scale);
    ThereAndBack(v, scale, Pow10(decimals));
  }

  /** In particular nothing is lost on whole units, nor on a scale that is a multiple of the native one. */
  lemma RestoreNormalizeExact(v: u64, decimals: u64, scale: u64)
    requires Pow10(decimals) <= scale && (v % Pow10(decimals) == 0 || scale % Pow10(decimals) == 0)
    ensures NormalizeDecimalV2(v, decimals, scale).Ok?
    ensures RestoreDecimal(NormalizeDecimalV2(v, decimals, scale).value, decimals, scale) == Ok(v)
  {
    RestoreNormalizeIff(v, decimals, scale);
    MultipleOfProduct(v, scale, Pow10(decimals));
  }

  lemma MultipleOfProduct(a: nat, b: nat, d: nat)
    requires d > 0 && (a % d == 0 || b % d == 0)
    ensures a * b % d == 0
  {
    if a % d == 0 {
      MultipleOf(a / d * b, d);
      assert a == a / d * d;
      assert a * b == a / d * b * d;
    } else {
      MultipleOf(b / d * a, d);
      assert b == b / d * d;
      assert a * b == b / d * a * d;
    }
  }

  lemma MultipleOf(q: nat, d: nat)
    requires d > 0
    ensures q * d % d == 0
  {
    var a := q * d;
    FloorAdjoint(a, d, q);
    FloorAdjoint(a, d, q + 1);
    assert (q + 1) * d == q * d + d;
    assert a == a / d * d + a % d;
  }

  /** The same for volumes with a positive lot size, whenever the conversion in does not fail. */
  lemma ConvertVolOutIn(v: u64, decimals: u64, lot: u64, scale: u64)
    requires lot > 0 && Pow10(decimals) <= scale
    requires ConvertInVol(v, decimals, lot, scale).Ok?
    ensures var w := ConvertInVol(v, decimals, lot, scale).value;
            && ConvertVolOut(w, decimals, lot, scale).Ok?
            && v - 1 <= ConvertVolOut(w, decimals, lot, scale).value <= v
            && (ConvertVolOut(w, decimals, lot, scale).value == v <==> v * (lot * scale) % Pow10(decimals) == 0)
  {
    MulLe(1, lot, scale);
    assert v * lot * scale == v * (lot * scale);
    ThereAndBack(v, lot * scale, Pow10(decimals));
  }

  lemma {:induction false} Pow10Mono(a: nat, b: nat)
    requires a <= b
    ensures Pow10(a) <= Pow10(b)
    decreases b
  {
    if a < b {
      Pow10Mono(a, b - 1);
    }
  }

  /** The ratio of the lot sizes in native units, which `AmmInfo::initialize` compares with the scale. */
  function LotRatio(coinLotSize: u64, pcLotSize: u64, coinScale: u64, pcScale: u64): Option<u128> {
    Mul64(coinLotSize, pcScale);
    Mul64(pcLotSize, coinScale);
    if pcLotSize * coinScale == 0 then None
    else
      QuotientFits(coinLotSize * pcScale, pcLotSize * coinScale);
      Some(coinLotSize * pcScale / (pcLotSize * coinScale))
  }

  /** The choice of `sys_decimal_value` in `AmmInfo::initialize`: the finer of the two token scales,
      or the ratio of the lot sizes if that is at least as fine.  Either way it is at least as fine as
      both token scales, so the conversions above lose at most one on both tokens. */
  method ChooseScale(coinDecimals: u8, pcDecimals: u8, coinLotSize: u64, pcLotSize: u64) returns (r: Result<u64>)
    ensures r.Ok? ==>
              && Pow10(coinDecimals) <= r.value && Pow10(pcDecimals) <= r.value
              && var ratio := LotRatio(coinLotSize, pcLotSize, Pow10(coinDecimals), Pow10(pcDecimals));
                 && ratio.Some?
                 && (r.value == ratio.value
                     || (r.value > ratio.value && r.value in {Pow10(coinDecimals), Pow10(pcDecimals)}))
    ensures r.Err? <==>
              || Pow10(coinDecimals) >= U64_LIMIT || Pow10(pcDecimals) >= U64_LIMIT
              || var ratio := LotRatio(coinLotSize, pcLotSize, Pow10(coinDecimals), Pow10(pcDecimals));
                 ratio.None? || ratio.value >= U64_LIMIT
  {
    var sysDecimalValue: nat;
    if pcDecimals > coinDecimals {
      Pow10Mono(coinDecimals, pcDecimals);
      sysDecimalValue := Pow10(pcDecimals);
    } else {
      Pow10Mono(pcDecimals, coinDecimals);
      sysDecimalValue := Pow10(coinDecimals);
    }
    if sysDecimalValue >= U64_LIMIT {
      return Err(Panicked);
    }
    var ratio := LotRatio(coinLotSize, pcLotSize, Pow10(coinDecimals), Pow10(pcDecimals));
    if ratio.None? {
      return Err(Panicked);
    }
    if sysDecimalValue <= ratio.value {
      if ratio.value >= U64_LIMIT {
        return Err(Panicked);
      }
      sysDecimalValue := ratio.value;
    }
    return Ok(sysDecimalValue);
  }
}
