/** Fee bumping (chains/fees/fees.go): integer arithmetic with floor division,
    clamping to a cap, and what repeated bumping guarantees. */
module Fees {
  import opened Wrappers

  /** `uint16` percentages, as the source types them. */
  type Percent = p: int | 0 <= p < 0x1_0000

  /** The largest percentage for which `100 + percentage` still fits a `uint16`. */
  const MAX_EXACT_PERCENT: int := 65435

  /** `100 + percentage` is computed in `uint16`, so it wraps. */
  function Factor(percentage: Percent): nat {
    (100 + percentage) % 0x1_0000
  }

  function AddPercentage(value: int, percentage: Percent): int {
    value * Factor(percentage) / 100
  }

  function Max(a: int, b: int): int {
    if a >= b then a else b
  }

  function Min(a: int, b: int): int {
    if a <= b then a else b
  }

  function MaxBumpedFee(original: int, percentage: Percent, units: int): int {
    Max(AddPercentage(original, percentage), original + units)
  }

  /** The node's current price replaces the bumped one when it is higher and within the cap. */
  function MaxFee(current: Option<int>, bumped: int, cap: int): int {
    match current
    case None => bumped
    case Some(price) =>
      if price > cap then bumped
      else if bumped < price then price
      else bumped
  }

  datatype BumpResult =
    | Bumped(price: int)
    | ExceedsLimit(cap: int)    // ErrBumpFeeExceedsLimit
    | NotBumped(price: int)     // ErrBump

  datatype BumpConfig = BumpConfig(maxInput: int, maxBump: int, bumpMin: int, percent: Percent) {
    function Cap(): int {
      Min(maxInput, maxBump)
    }
  }

  function CalculateBumpedFee(current: Option<int>, original: int, cfg: BumpConfig): BumpResult {
    var bumped := MaxFee(current, MaxBumpedFee(original, cfg.percent, cfg.bumpMin), cfg.Cap());
    if bumped > cfg.Cap() then ExceedsLimit(cfg.Cap())
    else if bumped == original then NotBumped(bumped)
    else Bumped(bumped)
  }

  function CalculateFee(maxFeePrice: int, defaultPrice: int, maxConfigured: int): (r: int)
    ensures r <= maxFeePrice && r <= defaultPrice && r <= maxConfigured
    ensures r == maxFeePrice || r == defaultPrice || r == maxConfigured
  {
    Min(defaultPrice, Min(maxFeePrice, maxConfigured))
  }

  /** `price` meets every lower limit a bump of `original` has to respect. */
  predicate MeetsMinimums(price: int, current: Option<int>, original: int, cfg: BumpConfig) {
    && price >= original + cfg.bumpMin
    && 100 * price > original * Factor(cfg.percent) - 100
    && (current.Some? && current.value <= cfg.Cap() ==> price >= current.value)
  }

  /** A successful bump is the cheapest price that meets every minimum; it fails with
      the limit error exactly when the bumped original alone is over the cap. */
  lemma BumpIsLeast(current: Option<int>, original: int, cfg: BumpConfig)
    ensures var r := CalculateBumpedFee(current, original, cfg);
            && (r.Bumped? ==>
                  && MeetsMinimums(r.price, current, original, cfg)
                  && r.price <= cfg.Cap() && r.price != original
                  && forall q :: MeetsMinimums(q, current, original, cfg) ==> r.price <= q)
            && (r.ExceedsLimit? <==>
                  original + cfg.bumpMin > cfg.Cap() || original * Factor(cfg.percent) >= 100 * cfg.Cap() + 100)
            && (r.ExceedsLimit? ==> r.cap == cfg.Cap())
            && (r.NotBumped? ==> r.price == original && MeetsMinimums(original, current, original, cfg))
  {
    FloorCharacterised(original * Factor(cfg.percent));
    var r := CalculateBumpedFee(current, original, cfg);
    if r.Bumped? {
      forall q | MeetsMinimums(q, current, original, cfg) ensures r.price <= q {
      }
    }
  }

  lemma FloorCharacterised(n: int)
    ensures 100 * (n / 100) <= n < 100 * (n / 100) + 100
  {
  }

  /** Percentages above 65435 wrap and make the "increase" a decrease: the promise that
      the input is increased holds exactly up to that bound. */
  lemma AddPercentageIncreasesIff(percentage: Percent)
    ensures (forall value: nat :: AddPercentage(value, percentage) >= value)
            <==> percentage <= MAX_EXACT_PERCENT
  {
    if percentage <= MAX_EXACT_PERCENT {
      forall value: nat ensures AddPercentage(value, percentage) >= value {
        assert value * Factor(percentage) == 100 * value + value * percentage;
        assert 0 <= value * percentage;
      }
    } else {
      assert Factor(percentage) == percentage - 65436;
      assert AddPercentage(1, percentage) == 0;
    }
  }

  /** `prices` is a chain of successful bumps; `currents[i]` is the estimator's price at bump i. */
  ghost predicate IsBumpChain(prices: seq<int>, currents: seq<Option<int>>, cfg: BumpConfig) {
    && |prices| == |currents| + 1
    && forall i :: 0 <= i < |currents| ==>
         CalculateBumpedFee(currents[i], prices[i], cfg) == Bumped(prices[i + 1])
  }

  function Pow(base: int, exponent: nat): int {
    if exponent == 0 then 1 else base * Pow(base, exponent - 1)
  }

  /** Every price of a chain is above its predecessors by at least `bumpMin` a step and stays
      within the cap, so the cap bounds the number of bumps. */
  lemma {:induction false} BumpChainIsBounded(prices: seq<int>, currents: seq<Option<int>>, cfg: BumpConfig)
    requires IsBumpChain(prices, currents, cfg)
    requires cfg.bumpMin >= 1
    ensures forall i, j :: 0 <= i < j < |prices| ==> prices[i] < prices[j] <= cfg.Cap()
    ensures prices[|currents|] >= prices[0] + |currents| * cfg.bumpMin
    ensures |currents| > 0 ==> |currents| * cfg.bumpMin <= cfg.Cap() - prices[0]
  {
    var k := |currents|;
    if k > 0 {
      BumpChainIsBounded(prices[..k], currents[..k - 1], cfg);
      BumpIsLeast(currents[k - 1], prices[k - 1], cfg);
      assert k * cfg.bumpMin == (k - 1) * cfg.bumpMin + cfg.bumpMin;
      forall i, j | 0 <= i < j < |prices| ensures prices[i] < prices[j] <= cfg.Cap() {
        if j < k {
          assert prices[..k][i] < prices[..k][j];
        } else if i < k - 1 {
          assert prices[..k][i] < prices[..k][k - 1];
        }
      }
    }
  }

  /** Floored compounding loses at most a fixed offset: k bumps by c percent grow the price
      at least like ((100 + c) / 100)^k, stated without division. */
  lemma {:induction false} BumpChainCompounds(prices: seq<int>, currents: seq<Option<int>>, cfg: BumpConfig)
    requires IsBumpChain(prices, currents, cfg)
    requires 1 <= cfg.percent <= MAX_EXACT_PERCENT
    ensures var c, k := cfg.percent, |currents|;
            (c * prices[k] - 99) * Pow(100, k) >= (c * prices[0] - 99) * Pow(100 + c, k)
  {
    var c, k := cfg.percent, |currents|;
    if k > 0 {
      BumpChainCompounds(prices[..k], currents[..k - 1], cfg);
      var first, prev, last := prices[0], prices[k - 1], prices[k];
      assert 100 * last > prev * (100 + c) - 100 by {
        BumpIsLeast(currents[k - 1], prev, cfg);
      }
      CompoundStep(prev, last, c);
      PowPositive(100, k - 1);
      CompoundChain(c * last - 99, c * prev - 99, c * first - 99, 100 + c, Pow(100, k - 1), Pow(100 + c, k - 1));
    }
  }

  lemma PowPositive(base: int, exponent: nat)
    requires base >= 1
    ensures Pow(base, exponent) >= 1
  {
  }

  lemma CompoundStep(p: int, q: int, c: int)
    requires c >= 1 && 100 * q > p * (100 + c) - 100
    ensures 100 * (c * q - 99) >= (100 + c) * (c * p - 99)
  {
    var slack := 100 * q - p * (100 + c) + 99;
    assert slack >= 0;
    assert 100 * (c * q - 99) - (100 + c) * (c * p - 99) == c * slack;
    assert c * slack >= 0;
  }

  lemma CompoundChain(a2: int, a1: int, a0: int, f: int, x: int, y: int)
    requires 100 * a2 >= f * a1
    requires a1 * x >= a0 * y
    requires f >= 1 && x >= 1
    ensures a2 * (100 * x) >= a0 * (f * y)
  {
    assert (100 * a2) * x >= (f * a1) * x;
    assert f * (a1 * x) >= f * (a0 * y);
    assert a2 * (100 * x) == (100 * a2) * x;
    assert a0 * (f * y) == f * (a0 * y);
  }
}
