/** Kamino Lend: the value of collateral shares read from a reserve account's bytes. */
module KlendCpi {
  import opened Machine
  import opened Arithmetic
  import ProRata

  const OFF_TOTAL_AVAILABLE: nat := 224
  const OFF_BORROWED_SF: nat := 232
  const OFF_COLLATERAL_SUPPLY: nat := 2592
  const TWO60: nat := 0x1000_0000_0000_0000 // klend's fixed-point scale

  /** Liquidity in whole base units: cash plus the integer part of the scaled borrows. */
  function TotalLiquidity(available: nat, borrowedSf: nat): nat {
    available + borrowedSf / TWO60
  }

  function CollateralValue(available: U64, borrowedSf: U128, supply: U128, shares: U64): Result<U64, AdapterError> {
    if shares == 0 then Ok(0)
    else if supply == 0 then Err(MathOverflow)
    else
      var liquidity :- CheckedAddU128(available, borrowedSf / TWO60);
      ProRata.CheckedShare(shares, liquidity, supply)
  }

  /** All three fields are read before the zero-share shortcut is taken. */
  function CollateralValueUsdc(reserve: seq<Byte>, shares: U64): Result<U64, AdapterError> {
    var available :- ReadU64(reserve, OFF_TOTAL_AVAILABLE);
    var borrowedSf :- ReadU128(reserve, OFF_BORROWED_SF);
    var supply :- ReadU64(reserve, OFF_COLLATERAL_SUPPLY);
    CollateralValue(available, borrowedSf, supply, shares)
  }

  /** On the bytes of a reserve the result is that of the three fields; a shorter buffer always fails. */
  lemma ReserveLayout(reserve: seq<Byte>, shares: U64, available: U64, borrowedSf: U128, supply: U64)
    requires |reserve| >= 2600 ==>
      && reserve[224..232] == LeBytes(available, 8)
      && reserve[232..248] == LeBytes(borrowedSf, 16)
      && reserve[2592..2600] == LeBytes(supply, 8)
    ensures |reserve| >= 2600 ==>
      CollateralValueUsdc(reserve, shares) == CollateralValue(available, borrowedSf, supply, shares)
    ensures |reserve| < 2600 ==> CollateralValueUsdc(reserve, shares) == Err(MathOverflow)
  {
    if |reserve| >= 2600 {
      ReadU64Of(reserve, OFF_TOTAL_AVAILABLE, available);
      ReadU128Of(reserve, OFF_BORROWED_SF, borrowedSf);
      ReadU64Of(reserve, OFF_COLLATERAL_SUPPLY, supply);
    }
  }

  /** The liquidity addition never fails, so the value is the floor share of total liquidity. */
  lemma IsShareOfLiquidity(available: U64, borrowedSf: U128, supply: U128, shares: U64)
    ensures TotalLiquidity(available, borrowedSf) < TWO128
    ensures CollateralValue(available, borrowedSf, supply, shares)
         == ProRata.CheckedShare(shares, TotalLiquidity(available, borrowedSf), supply)
  {
    DivMono(borrowedSf, TWO128, TWO60);
  }

  /** Every holder of up to the whole supply can be valued exactly when total liquidity fits a u64. */
  lemma EveryHolderPricedIff(available: U64, borrowedSf: U128, supply: U64)
    requires supply > 0
    ensures (forall shares: U64 | shares <= supply ::
              CollateralValue(available, borrowedSf, supply, shares).Ok?)
       <==> TotalLiquidity(available, borrowedSf) < TWO64
  {
    var liquidity := TotalLiquidity(available, borrowedSf);
    forall shares: U64 { IsShareOfLiquidity(available, borrowedSf, supply, shares); }
    ProRata.EveryHolderPricedIff(liquidity, supply);
    MulMono(supply, TWO64 - 1, liquidity);
    if liquidity < TWO64 { MulMono(liquidity, TWO64 - 1, TWO64 - 1); }
    forall a: U128 | a <= supply
      ensures ProRata.CheckedShare(a, liquidity, supply) == CollateralValue(available, borrowedSf, supply, a)
    {
      IsShareOfLiquidity(available, borrowedSf, supply, a);
    }
  }

  /** The exact rational value, floored: scaled borrows are not truncated first. */
  function ExactValue(available: nat, borrowedSf: nat, supply: nat, shares: nat): nat
    requires supply > 0
  {
    shares * (available * TWO60 + borrowedSf) / (TWO60 * supply)
  }

  /** Truncating the borrows first costs a holder at most one base unit. */
  lemma WithinOneUnit(available: U64, borrowedSf: U128, supply: U128, shares: U64)
    requires supply > 0 && shares <= supply
    requires CollateralValue(available, borrowedSf, supply, shares).Ok?
    ensures var r := CollateralValue(available, borrowedSf, supply, shares).value;
      r <= ExactValue(available, borrowedSf, supply, shares) <= r + 1
  {
    IsShareOfLiquidity(available, borrowedSf, supply, shares);
    var liquidity := TotalLiquidity(available, borrowedSf);
    ProRata.CheckedShareIs(shares, liquidity, supply);
    ProRata.ScaledPot(shares, liquidity, borrowedSf % TWO60, TWO60, supply);
    assert liquidity * TWO60 + borrowedSf % TWO60 == available * TWO60 + borrowedSf;
  }

  /** If the whole holding can be valued so can its parts, and splitting costs at most one unit. */
  lemma SplitHolding(available: U64, borrowedSf: U128, supply: U128, a: U64, b: U64)
    requires a + b < TWO64 && CollateralValue(available, borrowedSf, supply, a + b).Ok?
    ensures CollateralValue(available, borrowedSf, supply, a).Ok?
    ensures CollateralValue(available, borrowedSf, supply, b).Ok?
    ensures CollateralValue(available, borrowedSf, supply, a).value
          + CollateralValue(available, borrowedSf, supply, b).value
         <= CollateralValue(available, borrowedSf, supply, a + b).value
         <= CollateralValue(available, borrowedSf, supply, a).value
          + CollateralValue(available, borrowedSf, supply, b).value + 1
  {
    IsShareOfLiquidity(available, borrowedSf, supply, a);
    IsShareOfLiquidity(available, borrowedSf, supply, b);
    IsShareOfLiquidity(available, borrowedSf, supply, a + b);
    ProRata.CheckedSplit(a, b, TotalLiquidity(available, borrowedSf), supply);
  }
}
