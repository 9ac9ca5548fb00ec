/** What each adapter's value is, in numbers: from the booked and held shares, the market's record and prices. */
module Pricing {
  import opened Machine
  import opened Arithmetic
  import opened Accounts
  import AdapterSpec
  import KlendCpi
  import MarginfiCpi
  import OrcaCpi
  import ProRata

  // ----- a part of a pot -----

  predicate PartPriceable(shares: nat, pot: nat, supply: nat) {
    shares == 0
    || (supply > 0
        && shares * pot < 0x1_0000_0000_0000_0000_0000_0000_0000_0000
        && shares * pot < 0x1_0000_0000_0000_0000 * supply)
  }

  /** v is the whole number of units in shares / supply of the pot. */
  predicate IsPart(shares: nat, pot: nat, supply: nat, v: nat) {
    if shares == 0 then v == 0
    else supply > 0 && v * supply <= shares * pot < (v + 1) * supply
  }

  lemma PartIs(shares: U128, pot: U128, supply: U128)
    ensures var r := ProRata.CheckedShare(shares, pot, supply);
      && (r.Ok? <==> PartPriceable(shares, pot, supply))
      && (r.Ok? ==> IsPart(shares, pot, supply, r.value))
      && (r.Err? ==> r.error == MathOverflow)
  {
    ProRata.CheckedShareIs(shares, pot, supply);
    if supply > 0 {
      DivAtLeast(shares * pot, supply, TWO64);
      DivBounds(shares * pot, supply);
      if shares == 0 { DivIs(0, supply, 0); }
    }
  }

  // ----- every program's price -----

  /** Cash and the whole units of the borrowed amount, which klend scales by 2^60. */
  function ReserveLiquidity(prices: Prices): nat {
    prices.available + prices.borrowedSf / 0x1000_0000_0000_0000
  }

  predicate Priceable(program: Program, booked: nat, held: nat, m: Market, vault: nat) {
    match program
    case Kamino => PartPriceable(booked, ReserveLiquidity(m.prices), m.supply)
    case Jupiter => held < 0x1_0000_0000_0000_0000 && PartPriceable(held, m.prices.aum, m.supply)
    case Drift => PartPriceable(held, vault, m.supply)
    case Maple =>
      && held < 0x1_0000_0000_0000_0000
      && held * m.prices.sqrtPrice / 0x1_0000_0000_0000_0000 * m.prices.sqrtPrice
         < 0x1_0000_0000_0000_0000_0000_0000_0000_0000
    case MarginFi =>
      held == 0 || m.prices.shareValue <= 0
      || held / 0x1_0000 * (m.prices.shareValue / 0x1_0000) < 0x1_0000_0000_0000_0000_0000_0000_0000_0000
    case _ => false
  }

  /** The number a successful read gives. Kamino prices what is booked, the others all that is held; Maple
      is at most one unit and the price root below the exact spot value, MarginFi at most one unit and the
      shifted operands over 2^64 below the exact product. */
  predicate Price(program: Program, booked: nat, held: nat, m: Market, vault: nat, v: nat) {
    match program
    case Kamino => IsPart(booked, ReserveLiquidity(m.prices), m.supply, v)
    case Jupiter => IsPart(held, m.prices.aum, m.supply, v)
    case Drift => IsPart(held, vault, m.supply, v)
    case Maple =>
      var p := m.prices.sqrtPrice;
      && v == held * p / 0x1_0000_0000_0000_0000 * p / 0x1_0000_0000_0000_0000
      && v <= held * (p * p) / 0x1_0000_0000_0000_0000_0000_0000_0000_0000 <= v + 1 + p / 0x1_0000_0000_0000_0000
    case MarginFi =>
      var s := m.prices.shareValue;
      if held == 0 || s <= 0 then v == 0
      else
        && v == held / 0x1_0000 * (s / 0x1_0000) / 0x1_0000_0000_0000_0000
        && v <= held * s / 0x1_0000_0000_0000_0000_0000_0000
             <= v + 1 + (held / 0x1_0000 + s / 0x1_0000) / 0x1_0000_0000_0000_0000
    case _ => false
  }

  lemma MaplePrice(held: U64, p: U128)
    ensures var r := OrcaCpi.SpotValue(p, held);
      && (r.Err? ==> r.error == MathOverflow)
      && (r.Ok? <==> held * p / 0x1_0000_0000_0000_0000 * p < 0x1_0000_0000_0000_0000_0000_0000_0000_0000)
      && (r.Ok? ==>
            && r.value == held * p / 0x1_0000_0000_0000_0000 * p / 0x1_0000_0000_0000_0000
            && r.value <= held * (p * p) / 0x1_0000_0000_0000_0000_0000_0000_0000_0000
                 <= r.value + 1 + p / 0x1_0000_0000_0000_0000)
  {
    OrcaCpi.FailsExactly(p, held);
    if OrcaCpi.SpotValue(p, held).Ok? { OrcaCpi.StagedError(p, held); }
  }

  lemma MarginfiPrice(held: nat, s: I128)
    requires held < TWO127
    ensures var r := MarginfiCpi.SharesToUsdc(held, s);
      && (r.Err? ==> r.error == MathOverflow)
      && (r.Ok? <==>
            (held == 0 || s <= 0
             || held / 0x1_0000 * (s / 0x1_0000) < 0x1_0000_0000_0000_0000_0000_0000_0000_0000))
      && (r.Ok? ==> if held == 0 || s <= 0 then r.value == 0 else
            && r.value == held / 0x1_0000 * (s / 0x1_0000) / 0x1_0000_0000_0000_0000
            && r.value <= held * s / 0x1_0000_0000_0000_0000_0000_0000
                 <= r.value + 1 + (held / 0x1_0000 + s / 0x1_0000) / 0x1_0000_0000_0000_0000)
  {
    if held == 0 || s <= 0 {
      MarginfiCpi.NothingForNothing(held, s);
    } else {
      var product := held / 0x1_0000 * (s / 0x1_0000);
      MarginfiCpi.FailsExactly(held, s);
      DivAtLeast(product, TWO64, TWO64);
      MarginfiCpi.ValueError(held, s);
    }
  }

  /** When the adapter's value is defined, and what it is. */
  lemma ValueIs(w: World, pos: PositionId, vault: U64)
    requires pos.program.IsReference() && pos in w.states && pos in w.holdings && MarketOf(w, pos) in w.markets
    requires pos.program.MarginFi? ==> w.holdings[pos].amount < 0x8000_0000_0000_0000_0000_0000_0000_0000
    ensures var r := AdapterSpec.ValueOf(w, pos, vault);
      var (booked, held, m) := (w.states[pos].totalShares, w.holdings[pos].amount, w.markets[MarketOf(w, pos)]);
      && (r.Ok? <==> Priceable(pos.program, booked, held, m, vault))
      && (r.Ok? ==> Price(pos.program, booked, held, m, vault, r.value))
      && (r.Err? ==> r.error == MathOverflow)
  {
    var booked, held, m := w.states[pos].totalShares, w.holdings[pos].amount, w.markets[MarketOf(w, pos)];
    hide IsPart, PartPriceable, ProRata.CheckedShare, OrcaCpi.SpotValue, MarginfiCpi.SharesToUsdc, KlendCpi.CollateralValue;
    match pos.program
    case Kamino =>
      KlendCpi.IsShareOfLiquidity(m.prices.available, m.prices.borrowedSf, m.supply, booked);
      PartIs(booked, ReserveLiquidity(m.prices), m.supply);
    case Jupiter => if held < TWO64 { PartIs(held, m.prices.aum, m.supply); }
    case Drift => PartIs(held, vault, m.supply);
    case Maple => if held < TWO64 { MaplePrice(held, m.prices.sqrtPrice); }
    case MarginFi => MarginfiPrice(held, m.prices.shareValue);
  }
}
