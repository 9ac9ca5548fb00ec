/** Jupiter Perps: the value of an LP balance from the pool and LP-mint accounts' bytes. */
module JupCpi {
  import opened Machine
  import opened Arithmetic
  import ProRata

  const POOL_AUM_USD: nat := 180
  const MINT_SUPPLY: nat := 36
  const TOKEN_AMOUNT: nat := 64

  function TokenAmount(account: seq<Byte>): Result<U64, AdapterError> {
    ReadU64(account, TOKEN_AMOUNT)
  }

  function LpValue(aum: U128, supply: U128, balance: U64): Result<U64, AdapterError> {
    ProRata.CheckedShare(balance, aum, supply)
  }

  /** An empty balance is worth nothing whatever the accounts hold. */
  function LpValueUsdc(pool: seq<Byte>, mint: seq<Byte>, balance: U64): Result<U64, AdapterError> {
    if balance == 0 then Ok(0)
    else
      var aum :- ReadU128(pool, POOL_AUM_USD);
      var supply :- ReadU64(mint, MINT_SUPPLY);
      LpValue(aum, supply, balance)
  }

  /** The adapter's whole value read: the balance from the LP account, then its share of the pool. */
  function ValueFromBytes(lpAccount: seq<Byte>, pool: seq<Byte>, mint: seq<Byte>): Result<U64, AdapterError> {
    var balance :- TokenAmount(lpAccount);
    LpValueUsdc(pool, mint, balance)
  }

  lemma PoolLayout(pool: seq<Byte>, mint: seq<Byte>, balance: U64, aum: U128, supply: U64)
    requires |pool| >= 196 ==> pool[180..196] == LeBytes(aum, 16)
    requires |mint| >= 44 ==> mint[36..44] == LeBytes(supply, 8)
    ensures LpValueUsdc(pool, mint, balance) ==
      if balance > 0 && (|pool| < 196 || |mint| < 44) then Err(MathOverflow)
      else LpValue(aum, supply, balance)
  {
    if |pool| >= 196 { ReadU128Of(pool, POOL_AUM_USD, aum); }
    if |mint| >= 44 { ReadU64Of(mint, MINT_SUPPLY, supply); }
  }

  /** The value of the three accounts' fields, and every truncation that fails. */
  lemma ValueLayout(lpAccount: seq<Byte>, pool: seq<Byte>, mint: seq<Byte>, balance: U64, aum: U128, supply: U64)
    requires |lpAccount| >= 72 ==> lpAccount[64..72] == LeBytes(balance, 8)
    requires |pool| >= 196 ==> pool[180..196] == LeBytes(aum, 16)
    requires |mint| >= 44 ==> mint[36..44] == LeBytes(supply, 8)
    ensures ValueFromBytes(lpAccount, pool, mint) ==
      if |lpAccount| < 72 || (balance > 0 && (|pool| < 196 || |mint| < 44)) then Err(MathOverflow)
      else LpValue(aum, supply, balance)
  {
    if |lpAccount| >= 72 { ReadU64Of(lpAccount, TOKEN_AMOUNT, balance); }
    PoolLayout(pool, mint, balance, aum, supply);
  }

  /** Every LP holder can be valued exactly when the pool's assets fit a u64. */
  lemma EveryHolderPricedIff(aum: U128, supply: U64)
    requires supply > 0
    ensures (forall balance: U64 | balance <= supply :: LpValue(aum, supply, balance).Ok?) <==> aum < TWO64
  {
    ProRata.EveryHolderPricedIff(aum, supply);
    MulMono(supply, TWO64 - 1, aum);
    if aum < TWO64 { MulMono(aum, TWO64 - 1, TWO64 - 1); }
    forall a: U128 | a <= supply
      ensures ProRata.CheckedShare(a, aum, supply) == LpValue(aum, supply, a)
    {}
  }

  /** The pool and the LP mint are pinned independently, and the supply of any mint whatever is worth the
      whole pool: positions under two mints can each report all of it. */
  lemma EachMintReportsAll(aum: U64, supply: U64)
    requires supply > 0
    ensures LpValue(aum, supply, supply) == Ok(aum)
  {
    EveryHolderPricedIff(aum, supply);
    ProRata.CheckedShareIs(supply, aum, supply);
    DivIs(supply * aum, supply, aum);
  }
}
