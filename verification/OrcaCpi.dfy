/** Orca whirlpool: spot value of a syrupUSDC balance, squaring a Q64.64 root price in two stages. */
module OrcaCpi {
  import opened Machine
  import opened Arithmetic

  const WP_SQRT_PRICE: nat := 65
  const TOKEN_AMOUNT: nat := 64

  function TokenAmount(account: seq<Byte>): Result<U64, AdapterError> {
    ReadU64(account, TOKEN_AMOUNT)
  }

  /** `balance * (sqrtPrice / 2^64)^2`, shifting after each product. */
  function SpotValue(sqrtPrice: U128, balance: U64): Result<U64, AdapterError> {
    if balance == 0 then Ok(0)
    else
      var product :- CheckedMulU128(balance, sqrtPrice);
      var squared :- CheckedMulU128(product / TWO64, sqrtPrice);
      ToU64(squared / TWO64)
  }

  function WhirlpoolValueUsdc(whirlpool: seq<Byte>, balance: U64): Result<U64, AdapterError> {
    if balance == 0 then Ok(0)
    else
      var sqrtPrice :- ReadU128(whirlpool, WP_SQRT_PRICE);
      SpotValue(sqrtPrice, balance)
  }

  lemma WhirlpoolLayout(whirlpool: seq<Byte>, balance: U64, sqrtPrice: U128)
    requires |whirlpool| >= 81 ==> whirlpool[65..81] == LeBytes(sqrtPrice, 16)
    ensures WhirlpoolValueUsdc(whirlpool, balance) ==
      if balance > 0 && |whirlpool| < 81 then Err(MathOverflow) else SpotValue(sqrtPrice, balance)
  {
    if |whirlpool| >= 81 { ReadU128Of(whirlpool, WP_SQRT_PRICE, sqrtPrice); }
  }

  /** One stage: multiply by the root price and drop the 64 fractional bits. */
  function Stage(x: nat, sqrtPrice: nat): nat {
    x * sqrtPrice / TWO64
  }

  /** The adapter's whole value read: the balance from the syrupUSDC account, then the pool's price. */
  function ValueFromBytes(account: seq<Byte>, whirlpool: seq<Byte>): Result<U64, AdapterError> {
    var balance :- TokenAmount(account);
    WhirlpoolValueUsdc(whirlpool, balance)
  }

  /** The value of the two accounts' fields, and every truncation that fails. */
  lemma ValueLayout(account: seq<Byte>, whirlpool: seq<Byte>, balance: U64, sqrtPrice: U128)
    requires |account| >= 72 ==> account[64..72] == LeBytes(balance, 8)
    requires |whirlpool| >= 81 ==> whirlpool[65..81] == LeBytes(sqrtPrice, 16)
    ensures ValueFromBytes(account, whirlpool) ==
      if |account| < 72 || (balance > 0 && |whirlpool| < 81) then Err(MathOverflow) else SpotValue(sqrtPrice, balance)
  {
    if |account| >= 72 { ReadU64Of(account, TOKEN_AMOUNT, balance); }
    WhirlpoolLayout(whirlpool, balance, sqrtPrice);
  }

  /** Only the second product can decide: neither the first check nor the final narrowing ever fails alone. */
  lemma FailsExactly(sqrtPrice: U128, balance: U64)
    ensures SpotValue(sqrtPrice, balance).Err? <==> Stage(balance, sqrtPrice) * sqrtPrice >= TWO128
    ensures SpotValue(sqrtPrice, balance).Ok? ==>
      SpotValue(sqrtPrice, balance).value == Stage(Stage(balance, sqrtPrice), sqrtPrice)
  {
    var step := Stage(balance, sqrtPrice);
    if balance == 0 {
      DivIs(0, TWO64, 0);
      assert step * sqrtPrice == 0;
    }
    if balance * sqrtPrice >= TWO128 {
      DivAtLeast(balance * sqrtPrice, TWO64, TWO64);
      MulMono(balance, TWO64 - 1, sqrtPrice);
      MulMono(TWO64, step, sqrtPrice);
      MulMono(TWO64, sqrtPrice, TWO64);
    }
    if step * sqrtPrice < TWO128 {
      DivAtLeast(step * sqrtPrice, TWO64, TWO64);
    }
  }

  lemma StageMono(x: nat, y: nat, p: nat, q: nat)
    requires x <= y && p <= q
    ensures Stage(x, p) <= Stage(y, q) && Stage(x, p) * p <= Stage(y, q) * q
  {
    MulMono(x, y, p);
    MulMono(p, q, y);
    DivMono(x * p, y * q, TWO64);
    MulMono(Stage(x, p), Stage(y, q), p);
    MulMono(p, q, Stage(y, q));
  }

  /** Whatever can be priced can be priced at a smaller balance and price, for no more. */
  lemma Monotone(p: U128, q: U128, x: U64, y: U64)
    requires x <= y && p <= q && SpotValue(q, y).Ok?
    ensures SpotValue(p, x).Ok? && SpotValue(p, x).value <= SpotValue(q, y).value
  {
    FailsExactly(p, x);
    FailsExactly(q, y);
    StageMono(x, y, p, q);
    StageMono(Stage(x, p), Stage(y, q), p, q);
  }

  /** At a root price of at most one (2^64) a balance is always priced, and never above its face. */
  lemma AtMostFace(sqrtPrice: U128, balance: U64)
    requires sqrtPrice <= TWO64
    ensures SpotValue(sqrtPrice, balance).Ok? && SpotValue(sqrtPrice, balance).value <= balance
  {
    FailsExactly(sqrtPrice, balance);
    var step := Stage(balance, sqrtPrice);
    StageMono(balance, balance, sqrtPrice, TWO64);
    DivIs(balance * TWO64, TWO64, balance);
    StageMono(step, balance, sqrtPrice, TWO64);
    MulMono(step, TWO64 - 1, sqrtPrice);
    MulMono(sqrtPrice, TWO64, TWO64 - 1);
  }

  /** Staging the shifts avoids overflow for every balance exactly up to a root price of 2^64 + 1. */
  lemma EveryBalancePricedIff(sqrtPrice: U128)
    ensures (forall balance: U64 :: SpotValue(sqrtPrice, balance).Ok?) <==> sqrtPrice <= TWO64 + 1
  {
    var most: U64 := TWO64 - 1;
    if sqrtPrice <= TWO64 + 1 {
      FailsExactly(TWO64 + 1, most);
      assert most * (TWO64 + 1) == TWO128 - 1;
      DivIs(TWO128 - 1, TWO64, TWO64 - 1);
      forall balance: U64
        ensures SpotValue(sqrtPrice, balance).Ok?
      {
        Monotone(sqrtPrice, TWO64 + 1, balance, most);
      }
    } else {
      FailsExactly(sqrtPrice, most);
      StageMono(most, most, TWO64 + 2, sqrtPrice);
      assert most * (TWO64 + 2) == TWO128 + TWO64 - 2;
      DivIs(TWO128 + TWO64 - 2, TWO64, TWO64);
      MulMono(TWO64 + 2, sqrtPrice, TWO64);
    }
  }

  /** Just above that price the largest balance overflows. */
  lemma ProductOverflows()
    ensures SpotValue(TWO64 + 2, TWO64 - 1) == Err(MathOverflow)
  {
    FailsExactly(TWO64 + 2, TWO64 - 1);
    DivIs(TWO128 + TWO64 - 2, TWO64, TWO64);
  }

  /** The value before any rounding, floored once. */
  function ExactValue(sqrtPrice: nat, balance: nat): nat {
    balance * (sqrtPrice * sqrtPrice) / TWO128
  }

  /** The staged value never exceeds the exact one and falls short by at most 1 + floor(price root). */
  lemma StagedError(sqrtPrice: U128, balance: U64)
    requires SpotValue(sqrtPrice, balance).Ok?
    ensures var r := SpotValue(sqrtPrice, balance).value;
      r <= ExactValue(sqrtPrice, balance) <= r + 1 + sqrtPrice / TWO64
  {
    FailsExactly(sqrtPrice, balance);
    StageSquareError(balance, sqrtPrice);
  }

  lemma StageSquareError(x: nat, p: nat)
    ensures Stage(Stage(x, p), p) <= x * (p * p) / TWO128 <= Stage(Stage(x, p), p) + 1 + p / TWO64
  {
    var step := Stage(x, p);
    var r, hi := Stage(step, p), p / TWO64;
    var exact := x * (p * p);
    assert exact == x * p * p;
    DivBounds(x * p, TWO64);
    DivBounds(step * p, TWO64);
    DivBounds(p, TWO64);
    MulMono(r * TWO64, step * p, TWO64);
    MulMono(step * TWO64, x * p, p);
    assert r * TWO128 == r * TWO64 * TWO64;
    assert step * p * TWO64 == step * TWO64 * p;
    DivAtLeast(exact, TWO128, r);
    MulMono(x * p, (step + 1) * TWO64, p);
    assert (step + 1) * TWO64 * p == step * p * TWO64 + p * TWO64;
    MulMono(step * p + 1, (r + 1) * TWO64, TWO64);
    MulMono(p + 1, (hi + 1) * TWO64, TWO64);
    assert (r + 1 + (hi + 1)) * TWO128 == (r + 1) * TWO64 * TWO64 + (hi + 1) * TWO64 * TWO64;
    DivAtLeast(exact, TWO128, r + 1 + hi + 1);
  }

  lemma Distributes(x: nat, y: nat, p: nat)
    ensures (x + y) * p == x * p + y * p
  {}

  lemma SumOfStages(a: nat, b: nat)
    ensures a / TWO64 + b / TWO64 <= (a + b) / TWO64 <= a / TWO64 + b / TWO64 + 1
  {}

  /** A third term, whose own rounding is upwards. */
  lemma SumWithRounded(a: nat, b: nat, c: nat)
    ensures (a + b + c) / TWO64 <= a / TWO64 + b / TWO64 + 1 + RoundedUp(c)
  {}

  lemma StageSplit(x: nat, y: nat, p: nat)
    ensures Stage(x, p) + Stage(y, p) <= Stage(x + y, p) <= Stage(x, p) + Stage(y, p) + 1
  {
    Distributes(x, y, p);
    SumOfStages(x * p, y * p);
  }

  lemma StageSplitPlusOne(x: nat, y: nat, p: nat)
    ensures Stage(x + y + 1, p) <= Stage(x, p) + Stage(y, p) + 1 + RoundedUp(p)
  {
    Distributes(x, y, p);
    Distributes(x + y, 1, p);
    SumWithRounded(x * p, y * p, p);
  }

  /** At any root price, splitting a balance never gains value and loses at most one unit more than the
      price root, rounded up: two units up to a root price of one. */
  lemma SplitBalance(sqrtPrice: U128, a: U64, b: U64)
    requires a + b < TWO64
    ensures SpotValue(sqrtPrice, a + b).Ok? ==>
      && SpotValue(sqrtPrice, a).Ok? && SpotValue(sqrtPrice, b).Ok?
      && SpotValue(sqrtPrice, a).value + SpotValue(sqrtPrice, b).value
         <= SpotValue(sqrtPrice, a + b).value
         <= SpotValue(sqrtPrice, a).value + SpotValue(sqrtPrice, b).value + 1 + RoundedUp(sqrtPrice)
    ensures sqrtPrice <= TWO64 ==> SpotValue(sqrtPrice, a + b).Ok? && RoundedUp(sqrtPrice) <= 1
  {
    if sqrtPrice <= TWO64 { AtMostFace(sqrtPrice, a + b); }
    if SpotValue(sqrtPrice, a + b).Ok? {
      Monotone(sqrtPrice, sqrtPrice, a, a + b);
      Monotone(sqrtPrice, sqrtPrice, b, a + b);
      FailsExactly(sqrtPrice, a);
      FailsExactly(sqrtPrice, b);
      FailsExactly(sqrtPrice, a + b);
      SplitStages(a, b, sqrtPrice);
    }
  }

  /** A Q64.64 root price in whole units, rounded up. */
  function RoundedUp(sqrtPrice: nat): nat {
    (sqrtPrice + TWO64 - 1) / TWO64
  }

  lemma SplitStages(a: nat, b: nat, p: nat)
    ensures Stage(Stage(a, p), p) + Stage(Stage(b, p), p)
         <= Stage(Stage(a + b, p), p)
         <= Stage(Stage(a, p), p) + Stage(Stage(b, p), p) + 1 + RoundedUp(p)
  {
    var x, y := Stage(a, p), Stage(b, p);
    StageSplit(a, b, p);
    StageSplit(x, y, p);
    StageSplitPlusOne(x, y, p);
    StageMono(x + y, Stage(a + b, p), p, p);
    StageMono(Stage(a + b, p), x + y + 1, p, p);
    hide Stage, RoundedUp;
  }
}
