/** MarginFi: balance lookup in an account's bytes, and the I80F48 product that prices it. */
module MarginfiCpi {
  import opened Machine
  import opened Arithmetic

  const TWO16: nat := 0x1_0000
  const TWO32: nat := 0x1_0000_0000
  const TWO96: nat := 0x1_0000_0000_0000_0000_0000_0000

  /** Both operands lose their low 16 bits before the product, the product its low 64. */
  function SharesToUsdc(assetShares: I128, shareValue: I128): Result<U64, AdapterError> {
    if assetShares <= 0 || shareValue <= 0 then Ok(0)
    else
      var product :- CheckedMulU128(assetShares / TWO16, shareValue / TWO16);
      Ok(product / TWO64 % TWO64) // the `as u64` cast
  }

  /** No shares, or a share worth nothing, are worth nothing and never an error. */
  lemma NothingForNothing(s: I128, v: I128)
    requires s <= 0 || v <= 0
    ensures SharesToUsdc(s, v) == Ok(0)
  {}

  /** The exact product of two I80F48 numbers in whole base units. */
  function ExactValue(assetShares: nat, shareValue: nat): nat {
    assetShares * shareValue / TWO96
  }

  /** The truncating cast loses nothing: an error is returned exactly when the shifted product needs over 64 bits. */
  lemma FailsExactly(s: I128, v: I128)
    requires s > 0 && v > 0
    ensures SharesToUsdc(s, v).Err? <==> s / TWO16 * (v / TWO16) / TWO64 >= TWO64
    ensures SharesToUsdc(s, v).Ok? ==> SharesToUsdc(s, v).value == s / TWO16 * (v / TWO16) / TWO64
  {
    DivAtLeast(s / TWO16 * (v / TWO16), TWO64, TWO64);
    if SharesToUsdc(s, v).Ok? {
      SmallModulus(s / TWO16 * (v / TWO16) / TWO64, TWO64);
    }
  }

  /** Reported value never exceeds the exact one; the shortfall is bounded by the shifted operands. */
  lemma ValueError(s: I128, v: I128)
    requires s > 0 && v > 0
    ensures ExactValue(s, v) < TWO64 ==> SharesToUsdc(s, v).Ok?
    ensures SharesToUsdc(s, v).Ok? ==>
      SharesToUsdc(s, v).value <= ExactValue(s, v)
        <= SharesToUsdc(s, v).value + 1 + (s / TWO16 + v / TWO16) / TWO64
  {
    FailsExactly(s, v);
    PreShiftError(s, v);
  }

  lemma PreShiftBounds(s: nat, v: nat)
    ensures s / TWO16 * (v / TWO16) * TWO32 <= s * v
    ensures s * v < (s / TWO16 * (v / TWO16) + (s / TWO16 + v / TWO16) + 1) * TWO32
  {
    var h, k := s / TWO16, v / TWO16;
    MulMono(h * TWO16, s, v);
    MulMono(k * TWO16, v, h * TWO16);
    assert h * TWO16 * (k * TWO16) == h * k * TWO32;
    MulMono(s + 1, (h + 1) * TWO16, v);
    MulMono(v + 1, (k + 1) * TWO16, (h + 1) * TWO16);
    assert (h + 1) * TWO16 * ((k + 1) * TWO16) == (h * k + (h + k) + 1) * TWO32;
    assert (s + 1) * v == s * v + v;
    assert (h + 1) * TWO16 * (v + 1) == (h + 1) * TWO16 * v + (h + 1) * TWO16;
  }

  lemma PreShiftError(s: nat, v: nat)
    ensures var r := s / TWO16 * (v / TWO16) / TWO64;
      r <= ExactValue(s, v) <= r + 1 + (s / TWO16 + v / TWO16) / TWO64
  {
    var p, t := s / TWO16 * (v / TWO16), s / TWO16 + v / TWO16;
    PreShiftBounds(s, v);
    var e := s * v / TWO32;
    DivAtLeast(s * v, TWO32, p);
    DivAtLeast(s * v, TWO32, p + t + 1);
    DivDiv(s * v, TWO32, TWO64, TWO96);
    DivMono(p, e, TWO64);
    DivMono(e, p + t, TWO64);
    assert (p + t) / TWO64 <= p / TWO64 + t / TWO64 + 1;
  }

  /** With shifted operands that together stay below 2^64 the report is exact or one unit low. */
  lemma ExactOrOneLow(s: I128, v: I128)
    requires s > 0 && v > 0 && s / TWO16 + v / TWO16 < TWO64 && SharesToUsdc(s, v).Ok?
    ensures ExactValue(s, v) - 1 <= SharesToUsdc(s, v).value <= ExactValue(s, v)
  {
    ValueError(s, v);
    DivIs(s / TWO16 + v / TWO16, TWO64, 0);
  }

  /** What the pre-shift discards, in units of 2^-96 base units. */
  function Discarded(s: nat, v: nat): int {
    s * v - s / TWO16 * (v / TWO16) * TWO32
  }

  /** An operand with kept high part `high` and discarded low bits `low`. */
  function Operand(high: nat, low: nat): nat {
    high * TWO16 + low
  }

  /** Given the kept high parts, the discarded part is below one base unit whatever the low bits are
      exactly when (h + k) * 65535 * 65536 + 65535^2 < 2^96. */
  lemma LossBelowOneUnitIff(h: nat, k: nat)
    ensures (forall a: nat, b: nat | a < TWO16 && b < TWO16 ::
              Discarded(Operand(h, a), Operand(k, b)) < TWO96)
       <==> (h + k) * 0xFFFF * TWO16 + 0xFFFF * 0xFFFF < TWO96
  {
    var bound := (h + k) * 0xFFFF * TWO16 + 0xFFFF * 0xFFFF;
    forall a: nat, b: nat | a < TWO16 && b < TWO16
      ensures Discarded(Operand(h, a), Operand(k, b)) <= bound
      ensures a == 0xFFFF && b == 0xFFFF ==> Discarded(Operand(h, a), Operand(k, b)) == bound
    {
      DiscardedIs(h, k, a, b);
      MulMono(a, 0xFFFF, k);
      MulMono(b, 0xFFFF, h);
      MulMono(a, 0xFFFF, b);
    }
    assert Discarded(Operand(h, 0xFFFF), Operand(k, 0xFFFF)) == bound;
  }

  lemma DiscardedIs(h: nat, k: nat, a: nat, b: nat)
    requires a < TWO16 && b < TWO16
    ensures Discarded(Operand(h, a), Operand(k, b)) == (h * b + k * a) * TWO16 + a * b
  {
    var s, v := Operand(h, a), Operand(k, b);
    DivIs(s, TWO16, h);
    DivIs(v, TWO16, k);
    assert s * v == h * TWO16 * (k * TWO16) + h * TWO16 * b + a * (k * TWO16) + a * b;
    assert h * TWO16 * (k * TWO16) == h * k * TWO32;
  }

  /** Where the condition fails the loss is not small: here half of the value is not reported. */
  lemma LossCanBeLarge()
    ensures SharesToUsdc(0x10_0000_0000_0000_0000_0000_0000_0000, 0x1_FFFF) == Ok(0x10_0000_0000)
    ensures ExactValue(0x10_0000_0000_0000_0000_0000_0000_0000, 0x1_FFFF) == 0x1F_FFF0_0000
  {}

  /** The product does overflow on valid operands: a share number is priced at every share value exactly
      up to 2^17 after the shift. */
  lemma EveryShareValuePricedIff(s: I128)
    requires s > 0
    ensures (forall v: I128 :: SharesToUsdc(s, v).Ok?) <==> s / TWO16 <= 0x2_0000
  {
    var h, most: I128 := s / TWO16, TWO127 - 1;
    var k := most / TWO16;
    DivIs(most, TWO16, 0x7FFF_FFFF_FFFF_FFFF_FFFF_FFFF_FFFF);
    if h <= 0x2_0000 {
      forall v: I128
        ensures SharesToUsdc(s, v).Ok?
      {
        if v > 0 {
          DivMono(v, most, TWO16);
          MulMono(v / TWO16, k, h);
          MulMono(h, 0x2_0000, k);
        }
      }
    } else {
      MulMono(0x2_0001, h, k);
      assert SharesToUsdc(s, most).Err?;
    }
  }

  /** For instance here. */
  lemma ProductOverflows()
    ensures SharesToUsdc(0x4000_0000_0000_0000_0000_0000_0000_0000, 0x1_0000_0000_0000_0000_0000) == Err(MathOverflow)
  {}
}
