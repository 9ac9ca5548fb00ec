/** The floor share `a * pot / supply` behind the Kamino, Jupiter and Drift valuations. */
module ProRata {
  import opened Machine
  import opened Arithmetic

  function Share(a: nat, pot: nat, supply: nat): nat
    requires supply > 0
  {
    a * pot / supply
  }

  lemma Distributes(a: nat, b: nat, pot: nat)
    ensures (a + b) * pot == a * pot + b * pot
  {}

  lemma BetweenMultiples(x: nat, y: nat, d: nat, p: nat, q: nat)
    requires d > 0 && p * d <= x < (p + 1) * d && q * d <= y < (q + 1) * d
    ensures p + q <= (x + y) / d <= p + q + 1
  {
    Distributes(p, q, d);
    Distributes(p + 1, q + 1, d);
    DivAtLeast(x + y, d, p + q);
    DivAtLeast(x + y, d, p + q + 2);
  }

  lemma QuotientsAdd(x: nat, y: nat, d: nat)
    requires d > 0
    ensures x / d + y / d <= (x + y) / d <= x / d + y / d + 1
  {
    var p := Quotient(x, d);
    var q := Quotient(y, d);
    BetweenMultiples(x, y, d, p, q);
  }

  lemma Quotient(x: nat, d: nat) returns (q: nat)
    requires d > 0
    ensures q == x / d && q * d <= x < (q + 1) * d
  {
    q := x / d;
    DivBounds(x, d);
  }

  /** Splitting a holding in two never gains value and loses at most one unit. */
  lemma SplitInTwo(a: nat, b: nat, pot: nat, supply: nat)
    requires supply > 0
    ensures Share(a, pot, supply) + Share(b, pot, supply) <= Share(a + b, pot, supply)
    ensures Share(a + b, pot, supply) <= Share(a, pot, supply) + Share(b, pot, supply) + 1
  {
    Distributes(a, b, pot);
    QuotientsAdd(a * pot, b * pot, supply);
  }

  function Total(parts: seq<nat>): nat {
    if parts == [] then 0 else parts[0] + Total(parts[1..])
  }

  function Shares(parts: seq<nat>, pot: nat, supply: nat): nat
    requires supply > 0
  {
    if parts == [] then 0 else Share(parts[0], pot, supply) + Shares(parts[1..], pot, supply)
  }

  /** Among n holders the reported values add up to the whole, short by at most n - 1 units. */
  lemma {:induction false} SplitAmongMany(parts: seq<nat>, pot: nat, supply: nat)
    requires supply > 0 && parts != []
    ensures Shares(parts, pot, supply) <= Share(Total(parts), pot, supply)
    ensures Share(Total(parts), pot, supply) <= Shares(parts, pot, supply) + |parts| - 1
  {
    if |parts| == 1 {
      assert Total(parts[1..]) == 0;
      assert Shares(parts[1..], pot, supply) == 0;
    } else {
      SplitAmongMany(parts[1..], pot, supply);
      SplitInTwo(parts[0], Total(parts[1..]), pot, supply);
    }
  }

  /** A holder of at most the whole supply is worth at most the whole pot. */
  lemma ShareAtMostPot(a: nat, pot: nat, supply: nat)
    requires supply > 0 && a <= supply
    ensures Share(a, pot, supply) <= pot
  {
    MulMono(a, supply, pot);
    DivMono(a * pot, supply * pot, supply);
    DivIs(supply * pot, supply, pot);
  }

  /** The checked form all three programs compute in u128 and narrow to u64. */
  function CheckedShare(a: U128, pot: U128, supply: U128): Result<U64, AdapterError> {
    if a == 0 then Ok(0)
    else if supply == 0 then Err(MathOverflow)
    else
      var product :- CheckedMulU128(a, pot);
      var value :- CheckedDivU128(product, supply);
      ToU64(value)
  }

  lemma CheckedShareIs(a: U128, pot: U128, supply: U128)
    ensures CheckedShare(a, pot, supply) == (
      if supply == 0 then if a == 0 then Ok(0) else Err(MathOverflow)
      else if a * pot < TWO128 && Share(a, pot, supply) < TWO64 then Ok(Share(a, pot, supply))
      else Err(MathOverflow))
  {
    if a == 0 && supply > 0 {
      assert a * pot == 0;
      DivIs(0, supply, 0);
    }
  }

  /** If the whole can be valued so can its parts, and splitting costs at most one unit. */
  lemma CheckedSplit(a: U128, b: U128, pot: U128, supply: U128)
    requires a + b < TWO128 && CheckedShare(a + b, pot, supply).Ok?
    ensures CheckedShare(a, pot, supply).Ok? && CheckedShare(b, pot, supply).Ok?
    ensures CheckedShare(a, pot, supply).value + CheckedShare(b, pot, supply).value
         <= CheckedShare(a + b, pot, supply).value
         <= CheckedShare(a, pot, supply).value + CheckedShare(b, pot, supply).value + 1
  {
    CheckedShareIs(a, pot, supply);
    CheckedShareIs(b, pot, supply);
    CheckedShareIs(a + b, pot, supply);
    if supply > 0 {
      PartsFit(a, b, pot, TWO128);
      SplitInTwo(a, b, pot, supply);
    }
  }

  lemma PartsFit(a: nat, b: nat, pot: nat, cap: nat)
    requires (a + b) * pot < cap
    ensures a * pot < cap && b * pot < cap
  {
    MulMono(a, a + b, pot);
    MulMono(b, a + b, pot);
  }

  /** Every holder of up to the whole supply can be valued exactly when the pot fits a u64 and its
      product with the supply a u128. */
  lemma EveryHolderPricedIff(pot: U128, supply: U128)
    requires supply > 0
    ensures (forall a: U128 | a <= supply :: CheckedShare(a, pot, supply).Ok?) <==> pot < TWO64 && supply * pot < TWO128
  {
    if pot < TWO64 && supply * pot < TWO128 {
      forall a: U128 | a <= supply
        ensures CheckedShare(a, pot, supply).Ok?
      {
        MulMono(a, supply, pot);
        ShareAtMostPot(a, pot, supply);
        CheckedShareIs(a, pot, supply);
      }
    } else {
      CheckedShareIs(supply, pot, supply);
      DivIs(supply * pot, supply, pot);
    }
  }

  /** A pot known in 1/scale units: truncating it to whole units first costs at most one unit. */
  lemma ScaledPot(a: nat, pot: nat, f: nat, scale: nat, supply: nat)
    requires supply > 0 && scale > 0 && a <= supply && f < scale
    ensures scale * supply > 0
    ensures Share(a, pot, supply)
         <= a * (pot * scale + f) / (scale * supply)
         <= Share(a, pot, supply) + 1
  {
    Positive(scale, supply);
    var x, y := a * pot, a * f;
    ScaledTerm(a, pot, f, scale);
    SmallTerm(a, f, scale, supply);
    DivDiv(x * scale, scale, supply, scale * supply);
    DivIs(x * scale, scale, x);
    SumOfQuotients(x * scale, y, scale * supply);
  }

  lemma Positive(x: nat, y: nat)
    requires x > 0 && y > 0
    ensures x * y > 0
  {}

  lemma ScaledTerm(a: nat, pot: nat, f: nat, scale: nat)
    ensures a * (pot * scale + f) == a * pot * scale + a * f
  {
    Distributes(pot * scale, f, a);
    assert a * (pot * scale) == a * pot * scale;
  }

  lemma SmallTerm(a: nat, f: nat, scale: nat, supply: nat)
    requires a <= supply && f < scale && supply > 0
    ensures a * f < scale * supply
  {
    MulMono(a, supply, f);
    MulMono(f + 1, scale, supply);
    Distributes(f, 1, supply);
  }

  lemma SumOfQuotients(x: nat, y: nat, d: nat)
    requires y < d
    ensures x / d <= (x + y) / d <= x / d + 1
  {
    QuotientsAdd(x, y, d);
    DivIs(y, d, 0);
  }

  // ----- what several holders report together -----

  /** The reported value on unbounded numbers; nothing where the checked form fails. */
  function Report(a: nat, pot: nat, supply: nat): nat {
    if supply > 0 && a * pot < TWO128 && Share(a, pot, supply) < TWO64 then Share(a, pot, supply) else 0
  }

  lemma ReportIs(a: U128, pot: U128, supply: U128)
    ensures Report(a, pot, supply)
         == var r := CheckedShare(a, pot, supply); if r.Ok? then r.value else 0
  {
    CheckedShareIs(a, pot, supply);
  }

  ghost function Reports<K>(holders: map<K, nat>, pot: nat, supply: nat): map<K, nat> {
    map k | k in holders :: Report(holders[k], pot, supply)
  }

  lemma ReportScaled(a: nat, pot: nat, supply: nat)
    ensures Report(a, pot, supply) * supply <= a * pot
  {
    if supply > 0 { DivBounds(a * pot, supply); }
  }

  /** Holders of at most the supply together report at most the pot. */
  lemma ReportsFit<K(!new)>(holders: map<K, nat>, pot: nat, supply: nat)
    requires supply == 0 || Sum(holders) <= supply
    ensures Sum(Reports(holders, pot, supply)) <= pot
  {
    var reports := Reports(holders, pot, supply);
    forall k | k in holders ensures reports[k] * supply <= holders[k] * pot { ReportScaled(holders[k], pot, supply); }
    if supply == 0 {
      SumScaled(reports, holders, 1, 0);
    } else {
      SumScaled(reports, holders, supply, pot);
      MulMono(Sum(holders), supply, pot);
      DivAtLeast(supply * pot, supply, Sum(reports));
      DivIs(supply * pot, supply, pot);
    }
  }

  /** A pot of as many units as there are shares pays every holder one unit a share. */
  lemma ReportAtPar(a: nat, supply: nat)
    requires 0 < supply < TWO64 && a < TWO64
    ensures Report(a, supply, supply) == a
  {
    MulMono(a, TWO64, supply);
    MulMono(supply, TWO64 - 1, TWO64);
    DivIs(a * supply, supply, a);
  }

  /** For u64 shares and supply: the reports fit every pot exactly when the shares read add up to at
      most the supply read, or that is zero and nothing is reported. */
  lemma ReportsFitIff<K(!new)>(holders: map<K, nat>, supply: nat)
    requires supply < TWO64 && forall k | k in holders :: holders[k] < TWO64
    ensures (forall pot: U64 :: Sum(Reports(holders, pot, supply)) <= pot) <==> supply == 0 || Sum(holders) <= supply
  {
    if supply == 0 || Sum(holders) <= supply {
      forall pot: U64 ensures Sum(Reports(holders, pot, supply)) <= pot { ReportsFit(holders, pot, supply); }
    } else {
      forall k | k in holders ensures Report(holders[k], supply, supply) == holders[k] { ReportAtPar(holders[k], supply); }
      assert Reports(holders, supply, supply) == holders;
    }
  }

  // ----- one holder against the pot -----

  function CeilDiv(x: nat, d: nat): nat
    requires d > 0
  {
    (x + d - 1) / d
  }

  lemma CeilDivIs(x: nat, d: nat, q: nat)
    requires d > 0
    ensures CeilDiv(x, d) <= q <==> x <= q * d
  {
    DivAtLeast(x + d - 1, d, q + 1);
    assert (q + 1) * d == q * d + d;
  }

  /** The smallest pot at which more shares than the supply show: one whole unit above the pot. */
  predicate CanExceedPot(a: nat, supply: nat) {
    0 < supply < a
    && var pot := CeilDiv(supply, a - supply);
       a * pot < TWO128 && Share(a, pot, supply) < TWO64
  }

  lemma ExceedsAt(a: nat, pot: nat, supply: nat)
    requires 0 < supply < a
    ensures Share(a, pot, supply) > pot <==> CeilDiv(supply, a - supply) <= pot
  {
    CeilDivIs(supply, a - supply, pot);
    DivAtLeast(a * pot, supply, pot + 1);
    assert a * pot == supply * pot + pot * (a - supply);
    assert (pot + 1) * supply == supply * pot + supply;
  }

  /** One holder can report more than the pot exactly when its shares exceed the supply by enough for
      the excess to show while the computation still fits. */
  lemma ExceedsPotIff(a: nat, supply: nat)
    ensures (exists pot: U64 :: Report(a, pot, supply) > pot) <==> CanExceedPot(a, supply)
  {
    if pot: U64 :| Report(a, pot, supply) > pot {
      if a <= supply {
        ShareAtMostPot(a, pot, supply);
      } else {
        ExceedsAt(a, pot, supply);
        var least := CeilDiv(supply, a - supply);
        MulMono(least, pot, a);
        DivMono(a * least, a * pot, supply);
      }
    }
    if CanExceedPot(a, supply) {
      var pot := CeilDiv(supply, a - supply);
      ExceedsAt(a, pot, supply);
      assert Report(a, pot, supply) > pot;
    }
  }
}
