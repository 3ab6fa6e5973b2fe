/**
Transfer royalties of an asset: the older flat rule, which picks one tier, and the
progressive rule that replaced it, which charges each tier on its own slice of the
amount. Amounts are 64-bit integers and the running sum is added without a check.
*/
module Royalties {
  import opened Prelude

  const HUNDRED_PERCENT := 10000

  datatype RoyaltyError = InvalidValue | Int64Overflow

  type Royalty = Result<int, RoyaltyError>

  /** A tier: the width of its slice, and its percentage in hundredths of a percent. */
  datatype Tier = Tier(amount: int, percentage: nat)

  /** A percentage computation. The source has one over big integers and an older one over floats. */
  type Rate = (int, int) -> Royalty

  function Share(value: int, percentage: int): int { value * percentage / HUNDRED_PERCENT }

  /** The big-integer computation, which reports results beyond 64 bits. */
  function Checked(value: int, percentage: int): Royalty {
    if IsInt64(Share(value, percentage)) then Ok(Share(value, percentage)) else Err(Int64Overflow)
  }

  // ------------------------------------------------------------------------
  // The two flows
  // ------------------------------------------------------------------------

  /** What is left to add, given the royalties collected so far. */
  function NewFlowFrom(rate: Rate, amount: int, tiers: seq<Tier>, sum: int): Royalty
    decreases |tiers|
  {
    if tiers == [] then Ok(sum)
    else
      var tier := tiers[0];
      if amount < tier.amount then
        match rate(amount, tier.percentage)
        case Err(e) => Err(e)
        case Ok(r) => Ok(Wrap(sum + r))
      else
        match rate(tier.amount, tier.percentage)
        case Err(e) => Err(e)
        case Ok(r) =>
          var rest := Wrap(amount - tier.amount);
          if |tiers| == 1 && rest > 0 then
            match rate(rest, tier.percentage)
            case Err(e) => Err(e)
            case Ok(last) => Ok(Wrap(Wrap(sum + r) + last))
          else NewFlowFrom(rate, rest, tiers[1..], Wrap(sum + r))
  }

  function NewFlow(rate: Rate, amount: int, tiers: seq<Tier>): Royalty {
    NewFlowFrom(rate, amount, tiers, 0)
  }

  method ComputeNewFlowRoyalty(rate: Rate, transferred: int, tiers: seq<Tier>) returns (royalty: Royalty)
    ensures royalty == NewFlow(rate, transferred, tiers)
  {
    var royaltySum, amount := 0, transferred;
    var i := 0;
    while i < |tiers|
      invariant 0 <= i <= |tiers|
      invariant NewFlow(rate, transferred, tiers) == NewFlowFrom(rate, amount, tiers[i..], royaltySum)
    {
      var tier := tiers[i];
      if amount < tier.amount {
        var royaltyCalc := rate(amount, tier.percentage);
        if royaltyCalc.Err? {
          return royaltyCalc;
        }
        royaltySum := Wrap(royaltySum + royaltyCalc.value);
        return Ok(royaltySum);
      }
      var royaltyCalc := rate(tier.amount, tier.percentage);
      if royaltyCalc.Err? {
        return royaltyCalc;
      }
      amount := Wrap(amount - tier.amount);
      royaltySum := Wrap(royaltySum + royaltyCalc.value);
      if i == |tiers| - 1 && amount > 0 {
        royaltyCalc := rate(amount, tier.percentage);
        if royaltyCalc.Err? {
          return royaltyCalc;
        }
        royaltySum := Wrap(royaltySum + royaltyCalc.value);
        return Ok(royaltySum);
      }
      i := i + 1;
      assert tiers[i..] == tiers[i - 1..][1..];
    }
    return Ok(royaltySum);
  }

  /** The tier the flat rule picks: the first whose bound covers the amount, else the last. */
  function ChosenTier(amount: int, tiers: seq<Tier>): (t: Tier)
    requires tiers != []
    ensures t in tiers
  {
    if amount <= tiers[0].amount || |tiers| == 1 then tiers[0] else ChosenTier(amount, tiers[1..])
  }

  lemma {:induction false} ChosenTierMeaning(amount: int, tiers: seq<Tier>, k: nat)
    requires tiers != [] && k < |tiers|
    requires forall j :: 0 <= j < k ==> amount > tiers[j].amount
    requires amount <= tiers[k].amount || k == |tiers| - 1
    ensures ChosenTier(amount, tiers) == tiers[k]
    decreases k
  {
    if k > 0 {
      ChosenTierMeaning(amount, tiers[1..], k - 1);
    }
  }

  method ComputeOldFlowRoyalty(rate: Rate, amount: int, tiers: seq<Tier>) returns (royalty: Royalty)
    requires tiers != []
    ensures royalty == rate(amount, ChosenTier(amount, tiers).percentage)
  {
    var chosen := tiers[|tiers| - 1];
    for i := 0 to |tiers|
      invariant i < |tiers| ==> ChosenTier(amount, tiers) == ChosenTier(amount, tiers[i..])
      invariant i == |tiers| ==> ChosenTier(amount, tiers) == chosen
      invariant chosen == tiers[|tiers| - 1]
    {
      if amount > tiers[i].amount {
        assert i + 1 < |tiers| ==> tiers[i..][1..] == tiers[i + 1..];
        continue;
      }
      chosen := tiers[i];
      break;
    }
    return rate(amount, chosen.percentage);
  }

  method GetTransferRoyaltyByAmount(rate: Rate, amount: int, tiers: seq<Tier>, isKdaFprFork: bool)
    returns (royalty: Royalty)
    ensures tiers == [] ==> royalty == Err(InvalidValue)
    ensures tiers != [] && !isKdaFprFork ==> royalty == rate(amount, ChosenTier(amount, tiers).percentage)
    ensures tiers != [] && isKdaFprFork ==> royalty == NewFlow(rate, amount, tiers)
  {
    if |tiers| == 0 {
      return Err(InvalidValue);
    }
    if !isKdaFprFork {
      royalty := ComputeOldFlowRoyalty(rate, amount, tiers);
    } else {
      royalty := ComputeNewFlowRoyalty(rate, amount, tiers);
    }
  }

  // ------------------------------------------------------------------------
  // The reference: cut the amount into slices, charge each, add up
  // ------------------------------------------------------------------------

  datatype Slice = Slice(amount: int, percentage: nat)

  ghost predicate ValidTiers(tiers: seq<Tier>) {
    forall i :: 0 <= i < |tiers| ==> 0 <= tiers[i].amount <= MAX_INT64
  }

  /** Each tier takes up to its width; the last one also takes what is left over. */
  function Slices(amount: int, tiers: seq<Tier>): seq<Slice>
    decreases |tiers|
  {
    if tiers == [] then []
    else if amount < tiers[0].amount then [Slice(amount, tiers[0].percentage)]
    else
      [Slice(tiers[0].amount, tiers[0].percentage)] +
      if |tiers| > 1 then Slices(amount - tiers[0].amount, tiers[1..])
      else if amount > tiers[0].amount then [Slice(amount - tiers[0].amount, tiers[0].percentage)]
      else []
  }

  function TotalAmount(slices: seq<Slice>): int {
    if slices == [] then 0 else slices[0].amount + TotalAmount(slices[1..])
  }

  /** The royalty before rounding, in units of a hundredth of a percent. */
  function TotalWeight(slices: seq<Slice>): int {
    if slices == [] then 0 else slices[0].amount * slices[0].percentage + TotalWeight(slices[1..])
  }

  /** Every slice rounded down on its own. */
  function TotalShare(slices: seq<Slice>): int {
    if slices == [] then 0 else Share(slices[0].amount, slices[0].percentage) + TotalShare(slices[1..])
  }

  /** What the new flow owes on these tiers, exactly. */
  function Owed(amount: int, tiers: seq<Tier>): int { TotalShare(Slices(amount, tiers)) }

  ghost predicate AllChecked(slices: seq<Slice>) {
    forall i :: 0 <= i < |slices| ==> Share(slices[i].amount, slices[i].percentage) <= MAX_INT64
  }

  ghost predicate NonNegative(slices: seq<Slice>) {
    forall i :: 0 <= i < |slices| ==> 0 <= slices[i].amount
  }

  /** Slices after the first tier is used up. */
  function RestSlices(amount: int, tiers: seq<Tier>): seq<Slice>
    requires tiers != [] && amount >= tiers[0].amount
  {
    if |tiers| > 1 then Slices(amount - tiers[0].amount, tiers[1..])
    else if amount > tiers[0].amount then [Slice(amount - tiers[0].amount, tiers[0].percentage)]
    else []
  }

  lemma SlicesCons(amount: int, tiers: seq<Tier>)
    requires tiers != [] && amount >= tiers[0].amount
    ensures Slices(amount, tiers) == [Slice(tiers[0].amount, tiers[0].percentage)] + RestSlices(amount, tiers)
    ensures Slices(amount, tiers)[1..] == RestSlices(amount, tiers)
  {
  }

  lemma OneSlice(s: Slice)
    ensures TotalAmount([s]) == s.amount
    ensures TotalWeight([s]) == s.amount * s.percentage
    ensures TotalShare([s]) == Share(s.amount, s.percentage)
  {
  }

  /** The slices are non-negative and sum exactly to the amount; there is at most one more than there are tiers. */
  lemma {:induction false} SlicesPartition(amount: int, tiers: seq<Tier>)
    requires 0 <= amount && ValidTiers(tiers) && tiers != []
    ensures TotalAmount(Slices(amount, tiers)) == amount
    ensures 1 <= |Slices(amount, tiers)| <= |tiers| + 1
    ensures NonNegative(Slices(amount, tiers))
    decreases |tiers|
  {
    if amount < tiers[0].amount {
      OneSlice(Slice(amount, tiers[0].percentage));
    } else {
      SlicesCons(amount, tiers);
      if |tiers| > 1 {
        SlicesPartition(amount - tiers[0].amount, tiers[1..]);
      } else {
        OneSlice(Slice(amount - tiers[0].amount, tiers[0].percentage));
      }
    }
  }

  /** The total width of the tiers. */
  function Width(tiers: seq<Tier>): int {
    if tiers == [] then 0 else tiers[0].amount + Width(tiers[1..])
  }

  /** Whether slice i is right for its tier. */
  ghost predicate SliceFits(slices: seq<Slice>, tiers: seq<Tier>, i: nat)
    requires tiers != [] && i < |slices|
  {
    && slices[i].percentage == tiers[if i < |tiers| then i else |tiers| - 1].percentage
    && (i < |slices| - 1 ==> i < |tiers| && slices[i].amount == tiers[i].amount)
    && (i < |tiers| ==> slices[i].amount <= tiers[i].amount)
  }

  lemma SliceFitsLater(slices: seq<Slice>, tiers: seq<Tier>, i: nat)
    requires |tiers| > 1 && 0 < i < |slices| && SliceFits(slices[1..], tiers[1..], i - 1)
    ensures SliceFits(slices, tiers, i)
  {
    assert slices[1..][i - 1] == slices[i];
  }

  lemma FirstSliceFits(amount: int, tiers: seq<Tier>)
    requires 0 <= amount && ValidTiers(tiers) && tiers != []
    ensures Slices(amount, tiers) != [] && SliceFits(Slices(amount, tiers), tiers, 0)
  {
    if amount >= tiers[0].amount {
      SlicesCons(amount, tiers);
    }
  }

  lemma LeftoverFits(amount: int, tiers: seq<Tier>)
    requires |tiers| == 1 && 0 <= tiers[0].amount < amount
    ensures |Slices(amount, tiers)| == 2 && SliceFits(Slices(amount, tiers), tiers, 1)
  {
    SlicesCons(amount, tiers);
  }

  /**
  Which slice is whose: slice i carries tier i's percentage, and its width too unless it is
  the last slice; what is left over goes at the last tier's percentage.
  */
  lemma {:induction false} SlicesFollowTiers(amount: int, tiers: seq<Tier>, i: nat)
    requires 0 <= amount && ValidTiers(tiers) && tiers != [] && i < |Slices(amount, tiers)|
    ensures SliceFits(Slices(amount, tiers), tiers, i)
    decreases |tiers|
  {
    if i == 0 {
      FirstSliceFits(amount, tiers);
    } else if |tiers| == 1 {
      LeftoverFits(amount, tiers);
    } else {
      SlicesCons(amount, tiers);
      SlicesFollowTiers(amount - tiers[0].amount, tiers[1..], i - 1);
      SliceFitsLater(Slices(amount, tiers), tiers, i);
    }
  }

  /** There is a slice for what is left over exactly when the amount exceeds all widths together. */
  lemma {:induction false} LeftoverExactly(amount: int, tiers: seq<Tier>)
    requires 0 <= amount && ValidTiers(tiers) && tiers != []
    ensures |Slices(amount, tiers)| == |tiers| + 1 <==> amount > Width(tiers)
    decreases |tiers|
  {
    WidthIsNatural(tiers[1..]);
    if amount >= tiers[0].amount {
      SlicesCons(amount, tiers);
      if |tiers| > 1 {
        LeftoverExactly(amount - tiers[0].amount, tiers[1..]);
      } else {
        assert Width(tiers) == tiers[0].amount;
      }
    }
  }

  lemma {:induction false} WidthIsNatural(tiers: seq<Tier>)
    requires ValidTiers(tiers)
    ensures 0 <= Width(tiers)
  {
    if tiers != [] {
      WidthIsNatural(tiers[1..]);
    }
  }

  // ------------------------------------------------------------------------
  // The code computes the reference
  // ------------------------------------------------------------------------

  /**
  The percentage computation: hundredths of a percent, rounded down, and an error exactly
  when the result is no 64-bit integer.
  */
  lemma CheckedMeaning(value: int, percentage: int)
    ensures 10000 * Share(value, percentage) <= value * percentage < 10000 * (Share(value, percentage) + 1)
    ensures Checked(value, percentage) == Ok(Share(value, percentage)) <==>
              -9_223_372_036_854_775_808 <= Share(value, percentage) <= 9_223_372_036_854_775_807
    ensures Checked(value, percentage).Ok? || Checked(value, percentage) == Err(Int64Overflow)
  {
  }

  lemma ShareIsNatural(value: int, percentage: nat)
    requires 0 <= value
    ensures 0 <= Share(value, percentage)
  {
    assert 0 <= value * percentage;
  }

  /** What the code returns for these slices, given what it has collected. */
  ghost function Collected(slices: seq<Slice>, sum: int): Royalty {
    if AllChecked(slices) then Ok(Wrap(sum + TotalShare(slices))) else Err(Int64Overflow)
  }

  lemma CollectedOne(s: Slice, sum: int)
    requires 0 <= s.amount
    ensures Collected([s], sum) ==
              match Checked(s.amount, s.percentage) case Err(e) => Err(e) case Ok(r) => Ok(Wrap(sum + r))
  {
    OneSlice(s);
    ShareIsNatural(s.amount, s.percentage);
    CheckedCons([s]);
  }

  lemma CollectedCons(s: Slice, rest: seq<Slice>, sum: int)
    requires 0 <= s.amount
    ensures Collected([s] + rest, sum) ==
            match Checked(s.amount, s.percentage) case Err(e) => Err(e) case Ok(r) => Collected(rest, Wrap(sum + r))
  {
    ShareIsNatural(s.amount, s.percentage);
    CheckedCons([s] + rest);
    assert ([s] + rest)[1..] == rest;
    WrapAdds(sum + Share(s.amount, s.percentage), TotalShare(rest));
  }

  /** One tier used up: its royalty is collected, and the rest is charged on what is left. */
  lemma NewFlowFromCons(amount: int, tiers: seq<Tier>, sum: int)
    requires tiers != [] && 0 <= tiers[0].amount <= amount <= MAX_INT64
    ensures var tier := tiers[0];
            NewFlowFrom(Checked, amount, tiers, sum) ==
            match Checked(tier.amount, tier.percentage)
            case Err(e) => Err(e)
            case Ok(r) =>
              if |tiers| > 1 then NewFlowFrom(Checked, amount - tier.amount, tiers[1..], Wrap(sum + r))
              else if amount == tier.amount then Ok(Wrap(sum + r))
              else match Checked(amount - tier.amount, tier.percentage)
                   case Err(e) => Err(e)
                   case Ok(last) => Ok(Wrap(Wrap(sum + r) + last))
  {
    assert Wrap(amount - tiers[0].amount) == amount - tiers[0].amount;
  }

  lemma NothingCollected(sum: int)
    requires IsInt64(sum)
    ensures Collected([], sum) == Ok(sum)
  {
  }

  lemma LastTierIsSliced(amount: int, tiers: seq<Tier>, sum: int)
    requires |tiers| == 1 && 0 <= tiers[0].amount <= amount <= MAX_INT64
    ensures NewFlowFrom(Checked, amount, tiers, sum) == Collected(Slices(amount, tiers), sum)
  {
    var tier := tiers[0];
    var collected := Wrap(sum + Share(tier.amount, tier.percentage));
    NewFlowFromCons(amount, tiers, sum);
    SlicesCons(amount, tiers);
    CollectedCons(Slice(tier.amount, tier.percentage), RestSlices(amount, tiers), sum);
    if amount > tier.amount {
      CollectedOne(Slice(amount - tier.amount, tier.percentage), collected);
    } else {
      NothingCollected(collected);
    }
  }

  lemma {:induction false} NewFlowFromIsSliced(amount: int, tiers: seq<Tier>, sum: int)
    requires 0 <= amount <= MAX_INT64 && ValidTiers(tiers) && IsInt64(sum)
    ensures NewFlowFrom(Checked, amount, tiers, sum) == Collected(Slices(amount, tiers), sum)
    decreases |tiers|
  {
    if tiers == [] {
      NothingCollected(sum);
    } else if amount < tiers[0].amount {
      CollectedOne(Slice(amount, tiers[0].percentage), sum);
    } else if |tiers| == 1 {
      LastTierIsSliced(amount, tiers, sum);
    } else {
      var tier := tiers[0];
      NewFlowFromCons(amount, tiers, sum);
      SlicesCons(amount, tiers);
      CollectedCons(Slice(tier.amount, tier.percentage), RestSlices(amount, tiers), sum);
      NewFlowFromIsSliced(amount - tier.amount, tiers[1..], Wrap(sum + Share(tier.amount, tier.percentage)));
    }
  }

  lemma CheckedCons(slices: seq<Slice>)
    requires slices != []
    ensures AllChecked(slices) <==>
              Share(slices[0].amount, slices[0].percentage) <= MAX_INT64 && AllChecked(slices[1..])
  {
  }

  lemma {:induction false} ShareWithinTotal(slices: seq<Slice>, i: nat)
    requires NonNegative(slices) && i < |slices|
    ensures 0 <= Share(slices[i].amount, slices[i].percentage) <= TotalShare(slices)
  {
    TotalIsNatural(slices[1..]);
    ShareIsNatural(slices[0].amount, slices[0].percentage);
    if i > 0 {
      ShareWithinTotal(slices[1..], i - 1);
    }
  }

  lemma {:induction false} TotalIsNatural(slices: seq<Slice>)
    requires NonNegative(slices)
    ensures 0 <= TotalShare(slices)
  {
    if slices != [] {
      ShareIsNatural(slices[0].amount, slices[0].percentage);
      TotalIsNatural(slices[1..]);
    }
  }

  /**
  The new flow returns what it owes exactly when that fits in 64 bits. Otherwise it
  reports an overflow, if a single slice is too large, or returns a wrapped sum.
  */
  lemma {:induction false} NewFlowIsExactIffItFits(amount: int, tiers: seq<Tier>)
    requires 0 <= amount <= MAX_INT64 && ValidTiers(tiers) && tiers != []
    ensures NewFlow(Checked, amount, tiers) == Ok(Owed(amount, tiers)) <==> Owed(amount, tiers) <= MAX_INT64
    ensures NewFlow(Checked, amount, tiers).Err? <==> !AllChecked(Slices(amount, tiers))
    ensures 0 <= Owed(amount, tiers)
  {
    var slices := Slices(amount, tiers);
    SlicesPartition(amount, tiers);
    TotalIsNatural(slices);
    NewFlowFromIsSliced(amount, tiers, 0);
    forall i | 0 <= i < |slices|
      ensures Share(slices[i].amount, slices[i].percentage) <= TotalShare(slices)
    {
      ShareWithinTotal(slices, i);
    }
  }

  /** The unguarded addition can wrap: two slices at 150% of half the range give a negative royalty and no error. */
  lemma SumCanWrap()
    ensures var half := 0x4000_0000_0000_0000;
            var tiers := [Tier(half - 1, 15000)];
            var r := NewFlow(Checked, MAX_INT64, tiers);
            r.Ok? && r.value < 0
  {
  }

  // ------------------------------------------------------------------------
  // Rounding
  // ------------------------------------------------------------------------

  /** Each slice loses less than one unit to rounding, and never gains. */
  lemma {:induction false} RoundingLoss(slices: seq<Slice>)
    ensures 10000 * TotalShare(slices) <= TotalWeight(slices)
    ensures slices != [] ==> TotalWeight(slices) < 10000 * (TotalShare(slices) + |slices|)
  {
    if slices != [] {
      RoundingLoss(slices[1..]);
    }
  }

  ghost predicate AtMostAll(tiers: seq<Tier>) {
    forall i :: 0 <= i < |tiers| ==> tiers[i].percentage <= 10000
  }

  lemma ShareMonotone(a: int, b: int, percentage: nat)
    requires 0 <= a <= b
    ensures 0 <= Share(a, percentage) <= Share(b, percentage)
    ensures percentage <= 10000 ==> Share(b, percentage) - Share(a, percentage) <= b - a
  {
    assert 0 <= a * percentage;
    assert b * percentage == a * percentage + (b - a) * percentage;
    assert 0 <= (b - a) * percentage;
    if percentage <= 10000 {
      assert (b - a) * percentage <= (b - a) * 10000;
    }
  }

  // ------------------------------------------------------------------------
  // Monotonicity
  // ------------------------------------------------------------------------

  /** A larger amount never owes less; with percentages up to 100% it never owes more than the difference. */
  lemma {:induction false} OwedIsMonotone(a: int, b: int, tiers: seq<Tier>)
    requires 0 <= a <= b && ValidTiers(tiers) && tiers != []
    ensures 0 <= Owed(a, tiers) <= Owed(b, tiers)
    ensures AtMostAll(tiers) ==> Owed(b, tiers) - Owed(a, tiers) <= b - a
    decreases |tiers|
  {
    var tier := tiers[0];
    var p := tier.percentage;
    if a < tier.amount {
      OneSlice(Slice(a, p));
      if b < tier.amount {
        OneSlice(Slice(b, p));
        ShareMonotone(a, b, p);
      } else {
        ShareMonotone(a, tier.amount, p);
        SlicesCons(b, tiers);
        RestIsMonotone(0, b - tier.amount, tiers);
      }
    } else {
      ShareIsNatural(tier.amount, p);
      SlicesCons(a, tiers);
      SlicesCons(b, tiers);
      RestIsMonotone(a - tier.amount, b - tier.amount, tiers);
    }
  }

  /** The same for what is left after the first tier; nothing left owes nothing. */
  lemma {:induction false} RestIsMonotone(a: int, b: int, tiers: seq<Tier>)
    requires 0 <= a <= b && ValidTiers(tiers) && tiers != []
    ensures var w := tiers[0].amount;
            var x, y := TotalShare(RestSlices(w + a, tiers)), TotalShare(RestSlices(w + b, tiers));
            && 0 <= x <= y
            && (a == 0 ==> x == 0)
            && (AtMostAll(tiers) ==> y - x <= b - a)
    decreases |tiers|, 0
  {
    var p := tiers[0].percentage;
    if |tiers| > 1 {
      OwedIsMonotone(a, b, tiers[1..]);
      if a == 0 {
        NothingOwedOnNothing(tiers[1..]);
      }
    } else {
      OneSlice(Slice(a, p));
      OneSlice(Slice(b, p));
      ShareMonotone(a, b, p);
    }
  }

  lemma {:induction false} NothingOwedOnNothing(tiers: seq<Tier>)
    requires ValidTiers(tiers) && tiers != []
    ensures Owed(0, tiers) == 0
  {
    assert Share(0, tiers[0].percentage) == 0;
    if tiers[0].amount > 0 || |tiers| == 1 {
      assert Slices(0, tiers) == [Slice(0, tiers[0].percentage)];
      OneSlice(Slice(0, tiers[0].percentage));
    } else {
      SlicesCons(0, tiers);
      NothingOwedOnNothing(tiers[1..]);
    }
  }

  // ------------------------------------------------------------------------
  // Main results
  // ------------------------------------------------------------------------

  /**
  With percentages up to 100% the new flow never fails and never wraps; it takes
  between nothing and the amount, and misses the unrounded royalty by less than one
  unit per slice.
  */
  lemma {:induction false} NewFlowIsBounded(amount: int, tiers: seq<Tier>)
    requires 0 <= amount <= MAX_INT64 && ValidTiers(tiers) && tiers != [] && AtMostAll(tiers)
    ensures var r := NewFlow(Checked, amount, tiers);
            && r.Ok?
            && 0 <= r.value <= amount
            && 10000 * r.value <= TotalWeight(Slices(amount, tiers))
            && TotalWeight(Slices(amount, tiers)) < 10000 * (r.value + |Slices(amount, tiers)|)
  {
    SlicesPartition(amount, tiers);
    NothingOwedOnNothing(tiers);
    OwedIsMonotone(0, amount, tiers);
    NewFlowIsExactIffItFits(amount, tiers);
    RoundingLoss(Slices(amount, tiers));
  }

  /** Whatever the percentages: if the larger amount's royalty is exact, the smaller one's is and is no larger. */
  lemma {:induction false} NewFlowIsMonotone(a: int, b: int, tiers: seq<Tier>)
    requires 0 <= a <= b <= MAX_INT64 && ValidTiers(tiers) && tiers != []
    ensures NewFlow(Checked, b, tiers) == Ok(Owed(b, tiers)) ==>
              NewFlow(Checked, a, tiers) == Ok(Owed(a, tiers)) && Owed(a, tiers) <= Owed(b, tiers)
  {
    OwedIsMonotone(a, b, tiers);
    NewFlowIsExactIffItFits(a, tiers);
    NewFlowIsExactIffItFits(b, tiers);
  }

  /** With percentages up to 100%, transferring more never leaves the receiver with less. */
  lemma {:induction false} NetIsMonotone(a: int, b: int, tiers: seq<Tier>)
    requires 0 <= a <= b <= MAX_INT64 && ValidTiers(tiers) && tiers != [] && AtMostAll(tiers)
    ensures NewFlow(Checked, a, tiers).Ok? && NewFlow(Checked, b, tiers).Ok?
    ensures 0 <= a - NewFlow(Checked, a, tiers).value <= b - NewFlow(Checked, b, tiers).value
  {
    NewFlowIsBounded(a, tiers);
    NewFlowIsBounded(b, tiers);
    OwedIsMonotone(a, b, tiers);
    NothingOwedOnNothing(tiers);
    OwedIsMonotone(0, b, tiers);
    OwedIsMonotone(0, a, tiers);
    NewFlowIsExactIffItFits(a, tiers);
    NewFlowIsExactIffItFits(b, tiers);
  }

  ghost predicate Uniform(tiers: seq<Tier>, p: nat) {
    forall i :: 0 <= i < |tiers| ==> tiers[i].percentage == p
  }

  lemma {:induction false} UniformSlices(amount: int, tiers: seq<Tier>, p: nat)
    requires Uniform(tiers, p)
    ensures forall i :: 0 <= i < |Slices(amount, tiers)| ==> Slices(amount, tiers)[i].percentage == p
    decreases |tiers|
  {
    if |tiers| > 1 {
      UniformSlices(amount - tiers[0].amount, tiers[1..], p);
    }
  }

  lemma {:induction false} UniformWeight(slices: seq<Slice>, p: nat)
    requires forall i :: 0 <= i < |slices| ==> slices[i].percentage == p
    ensures TotalWeight(slices) == TotalAmount(slices) * p
  {
    if slices != [] {
      UniformWeight(slices[1..], p);
    }
  }

  /**
  When all tiers share one percentage, moving from the old flow to the new one never
  raises a royalty and lowers it by at most one unit per tier.
  */
  lemma {:induction false} ForkNeverRaises(amount: int, tiers: seq<Tier>, p: nat)
    requires 0 <= amount <= MAX_INT64 && ValidTiers(tiers) && tiers != [] && Uniform(tiers, p)
    requires Checked(amount, ChosenTier(amount, tiers).percentage).Ok?
    ensures var before := Checked(amount, ChosenTier(amount, tiers).percentage).value;
            var after := NewFlow(Checked, amount, tiers);
            after.Ok? && after.value <= before <= after.value + |tiers|
  {
    var slices := Slices(amount, tiers);
    SlicesPartition(amount, tiers);
    UniformSlices(amount, tiers, p);
    UniformWeight(slices, p);
    RoundingLoss(slices);
    assert ChosenTier(amount, tiers).percentage == p;
    BetweenMultiples(amount * p, TotalShare(slices), |slices|);
    NewFlowIsExactIffItFits(amount, tiers);
  }

  lemma {:induction false} WholeShares(slices: seq<Slice>)
    requires forall i :: 0 <= i < |slices| ==> slices[i].percentage == 10000
    ensures TotalShare(slices) == TotalAmount(slices)
  {
    if slices != [] {
      WholeShares(slices[1..]);
    }
  }

  /** A list whose tiers all carry 10000, a hundred percent, charges the whole amount; one of zeros nothing. */
  lemma {:induction false} WholeAndNothing(amount: int, tiers: seq<Tier>)
    requires 0 <= amount <= MAX_INT64 && ValidTiers(tiers) && tiers != []
    ensures Uniform(tiers, 10000) ==> NewFlow(Checked, amount, tiers) == Ok(amount)
    ensures Uniform(tiers, 0) ==> NewFlow(Checked, amount, tiers) == Ok(0)
  {
    var slices := Slices(amount, tiers);
    SlicesPartition(amount, tiers);
    NewFlowIsExactIffItFits(amount, tiers);
    if Uniform(tiers, 10000) {
      UniformSlices(amount, tiers, 10000);
      WholeShares(slices);
    }
    if Uniform(tiers, 0) {
      UniformSlices(amount, tiers, 0);
      UniformWeight(slices, 0);
      RoundingLoss(slices);
    }
  }

  lemma BetweenMultiples(weight: int, low: int, k: nat)
    requires 10000 * low <= weight < 10000 * (low + k)
    ensures low <= weight / 10000 < low + k
  {
  }
}
