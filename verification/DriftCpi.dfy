/** Drift insurance fund: stake shares and their value from three accounts' bytes. */
module DriftCpi {
  import opened Machine
  import ProRata

  const IF_STAKE_SHARES: nat := 40
  const SM_IF_TOTAL_SHARES: nat := 336
  const TOKEN_AMOUNT: nat := 64

  function StakeShares(stake: seq<Byte>): Result<U128, AdapterError> {
    ReadU128(stake, IF_STAKE_SHARES)
  }

  function StakeValue(shares: U128, total: U128, vault: U64): Result<U64, AdapterError> {
    ProRata.CheckedShare(shares, vault, total)
  }

  function StakeValueUsdc(stake: seq<Byte>, spotMarket: seq<Byte>, vault: seq<Byte>): Result<U64, AdapterError> {
    var shares :- StakeShares(stake);
    if shares == 0 then Ok(0)
    else
      var total :- ReadU128(spotMarket, SM_IF_TOTAL_SHARES);
      if total == 0 then Err(MathOverflow)
      else
        var balance :- ReadU64(vault, TOKEN_AMOUNT);
        StakeValue(shares, total, balance)
  }

  lemma StakeLayout(stake: seq<Byte>, spotMarket: seq<Byte>, vault: seq<Byte>,
                    shares: U128, total: U128, balance: U64)
    requires |stake| >= 56 ==> stake[40..56] == LeBytes(shares, 16)
    requires |spotMarket| >= 352 ==> spotMarket[336..352] == LeBytes(total, 16)
    requires |vault| >= 72 ==> vault[64..72] == LeBytes(balance, 8)
    ensures StakeValueUsdc(stake, spotMarket, vault) ==
      if |stake| < 56 || (shares > 0 && (|spotMarket| < 352 || |vault| < 72)) then Err(MathOverflow)
      else StakeValue(shares, total, balance)
  {
    if |stake| >= 56 { ReadU128Of(stake, IF_STAKE_SHARES, shares); }
    if |spotMarket| >= 352 { ReadU128Of(spotMarket, SM_IF_TOTAL_SHARES, total); }
    if |vault| >= 72 { ReadU64Of(vault, TOKEN_AMOUNT, balance); }
  }

  /** Every stake of up to all shares can be valued exactly when all shares times the vault's balance
      fit a u128: shares are u128 here, so the product can be what fails. */
  lemma EveryStakePricedIff(total: U128, vault: U64)
    requires total > 0
    ensures (forall shares: U128 | shares <= total :: StakeValue(shares, total, vault).Ok?) <==> total * vault < TWO128
  {
    ProRata.EveryHolderPricedIff(vault, total);
    forall shares: U128 | shares <= total
      ensures ProRata.CheckedShare(shares, vault, total) == StakeValue(shares, total, vault)
    {}
  }

  /** The stake is priced above the vault it is priced from. */
  predicate AboveVault(shares: U128, total: U128, vault: U64) {
    var r := StakeValue(shares, total, vault);
    r.Ok? && r.value > vault
  }

  /** Nothing ties the stake's shares to the market's total, and one stake reports more than some vault
      holds exactly when its excess over the total shows before the computation fails. */
  lemma StakeExceedsVaultIff(shares: U128, total: U128)
    ensures (exists vault: U64 :: AboveVault(shares, total, vault)) <==> ProRata.CanExceedPot(shares, total)
    ensures shares <= total ==> !ProRata.CanExceedPot(shares, total)
  {
    forall vault: U64
      ensures AboveVault(shares, total, vault) <==> ProRata.Report(shares, vault, total) > vault
    {
      ProRata.ReportIs(shares, vault, total);
    }
    ProRata.ExceedsPotIff(shares, total);
  }

  /** Ten shares of one in a vault of seven: ten times the vault. */
  lemma TenVaults()
    ensures StakeValue(10, 1, 7) == Ok(70)
  {}

  /** More shares than the total need not show: one share over 2^64 never reports more than its vault. */
  lemma ExcessCanHide(vault: U64)
    ensures !AboveVault(TWO64 + 1, TWO64, vault)
  {
    StakeExceedsVaultIff(TWO64 + 1, TWO64);
    assert ProRata.CeilDiv(TWO64, 1) == TWO64;
  }
}
